/** The line scanner: one pass over the body, each dispatch consuming a contiguous run of lines.
    The regular expressions are arbitrary; everything proved holds whatever they match. */
module Scanner {
  import opened Basics
  import opened Markdown

  /** What the scanner asks about lines: blank; a heading, with its level and title; an opening
      fence, with its language; whether a line closes the block another line opened; list
      items, indentation, quotes, pipes and table separators. */
  datatype Patterns = Patterns(
    blank: string -> bool,
    heading: string -> Option<(nat, string)>,
    fence: string -> Option<string>,
    closes: (string, string) -> bool,
    listItem: string -> bool,
    indented: string -> bool,
    quote: string -> bool,
    pipe: string -> bool,
    tableSep: string -> bool)

  predicate IsFence(p: Patterns, line: string) {
    p.fence(line).Some?
  }

  predicate IsHeading(p: Patterns, line: string) {
    p.heading(line).Some?
  }

  predicate IsTableStart(p: Patterns, lines: seq<string>, i: nat) {
    i + 1 < |lines| && p.pipe(lines[i]) && p.tableSep(lines[i + 1])
  }

  /** A pure fence of the opening character; its length is not compared with the opening's. */
  predicate IsClosingFence(trimmed: string, c: char) {
    ByteLen(trimmed) >= 3 && forall i | 0 <= i < |trimmed| :: trimmed[i] == c
  }

  /** The scanner's own questions, from the five regular expressions: what a heading and an
      opening fence capture, and what list items, quotes and separators match. */
  function Compiled(
    heading: string -> Option<(nat, string)>, fence: string -> Option<(char, string)>,
    listItem: string -> bool, quote: string -> bool, tableSep: string -> bool): Patterns
  {
    Patterns(
      line => Blank(line),
      line => match heading(line) case None => None case Some((level, title)) => Some((level, TrimSpace(title))),
      line => match fence(TrimSpace(line)) case None => None case Some((_, lang)) => Some(lang),
      (open, line) => IsClosingFence(TrimSpace(line),
          match fence(TrimSpace(open)) case None => '`' case Some((c, _)) => c),
      listItem,
      line => "  " <= line || "\t" <= line,
      quote,
      line => '|' in line,
      tableSep)
  }

  // ---- what each construct consumes -----------------------------------------------------------------

  /** The kind the dispatch chooses for a non-blank line. */
  function Classify(p: Patterns, lines: seq<string>, i: nat): BlockType
    requires i < |lines|
  {
    if IsFence(p, lines[i]) then Code
    else if IsHeading(p, lines[i]) then Heading
    else if IsTableStart(p, lines, i) then Table
    else if p.listItem(lines[i]) then List
    else if p.quote(lines[i]) then Quote
    else Paragraph
  }

  /** Whether a block of this kind goes on over line `i`. */
  predicate GoesOn(p: Patterns, kind: BlockType, lines: seq<string>, i: nat)
    requires i < |lines|
  {
    var line := lines[i];
    match kind
    case Table => !p.blank(line) && p.pipe(line)
    case List => !p.blank(line) && !IsHeading(p, line) && !IsFence(p, line) && (p.listItem(line) || p.indented(line))
    case Quote => p.quote(line)
    case Paragraph =>
      !p.blank(line) && !IsHeading(p, line) && !IsFence(p, line) && !p.listItem(line) && !p.quote(line)
          && !IsTableStart(p, lines, i)
    case _ => false
  }

  /** The first line from `i` on that a block of this kind does not take. */
  function RunEnd(p: Patterns, kind: BlockType, lines: seq<string>, i: nat): (end: nat)
    requires i <= |lines|
    ensures i <= end <= |lines| && (forall j :: i <= j < end ==> GoesOn(p, kind, lines, j))
    ensures end < |lines| ==> !GoesOn(p, kind, lines, end)
    decreases |lines| - i
  {
    if i == |lines| || !GoesOn(p, kind, lines, i) then i else RunEnd(p, kind, lines, i + 1)
  }

  /** One past the first closing fence from `i` on, or the end of input. */
  function FenceEnd(p: Patterns, open: string, lines: seq<string>, i: nat): (end: nat)
    requires i <= |lines|
    ensures i <= end <= |lines| && (forall j :: i <= j < end - 1 ==> !p.closes(open, lines[j]))
    ensures end < |lines| ==> i < end && p.closes(open, lines[end - 1])
    decreases |lines| - i
  {
    if i == |lines| then i
    else if p.closes(open, lines[i]) then i + 1
    else FenceEnd(p, open, lines, i + 1)
  }

  function EndOf(p: Patterns, lines: seq<string>, i: nat): nat
    requires i < |lines|
  {
    match Classify(p, lines, i)
    case Code => FenceEnd(p, lines[i], lines, i + 1)
    case Heading => i + 1
    case kind => RunEnd(p, kind, lines, i)
  }

  /** Lines, each with its newline, and the trailing newlines cut off. */
  function Glue(lines: seq<string>): string {
    if lines == [] then "" else Glue(lines[..|lines| - 1]) + lines[|lines| - 1] + "\n"
  }

  function TrimNewlines(s: string): (t: string)
    ensures t <= s && (t != "" ==> t[|t| - 1] != '\n')
    ensures forall j :: |t| <= j < |s| ==> s[j] == '\n'
  {
    if s != "" && s[|s| - 1] == '\n' then TrimNewlines(s[..|s| - 1]) else s
  }

  function BlockAt(p: Patterns, lines: seq<string>, i: nat): Block
    requires i < |lines|
  {
    match Classify(p, lines, i)
    case Heading => var (level, title) := p.heading(lines[i]).value; Block(Heading, level, title, "", lines[i])
    case Code =>
      Block(Code, 0, "", p.fence(lines[i]).value, TrimNewlines(Glue(lines[i..FenceEnd(p, lines[i], lines, i + 1)])))
    case kind => Block(kind, 0, "", "", TrimNewlines(Glue(lines[i..RunEnd(p, kind, lines, i)])))
  }

  /** Whatever the patterns match, a dispatched block takes at least its first line. */
  lemma Advances(p: Patterns, lines: seq<string>, i: nat)
    requires i < |lines| && !p.blank(lines[i])
    ensures i < EndOf(p, lines, i) <= |lines|
  {
    var kind := Classify(p, lines, i);
    if !kind.Code? && !kind.Heading? {
      assert GoesOn(p, kind, lines, i);
    }
  }

  // ---- the whole scan ---------------------------------------------------------------------------------

  /** The line ranges of the blocks, in order. */
  function Ranges(p: Patterns, lines: seq<string>, i: nat): seq<(nat, nat)>
    requires i <= |lines|
    decreases |lines| - i
  {
    if i == |lines| then []
    else if p.blank(lines[i]) then Ranges(p, lines, i + 1)
    else
      Advances(p, lines, i);
      [(i, EndOf(p, lines, i))] + Ranges(p, lines, EndOf(p, lines, i))
  }

  ghost predicate InRange(r: (nat, nat), i: nat) {
    r.0 <= i < r.1
  }

  /** The ranges are non-empty, within bounds, in order and apart. */
  lemma {:induction false} RangesOrdered(p: Patterns, lines: seq<string>, i: nat)
    requires i <= |lines|
    ensures forall k :: 0 <= k < |Ranges(p, lines, i)| ==>
              i <= Ranges(p, lines, i)[k].0 < Ranges(p, lines, i)[k].1 <= |lines|
    ensures forall j, k :: 0 <= j < k < |Ranges(p, lines, i)| ==> Ranges(p, lines, i)[j].1 <= Ranges(p, lines, i)[k].0
    decreases |lines| - i
  {
    if i < |lines| {
      if p.blank(lines[i]) {
        RangesOrdered(p, lines, i + 1);
      } else {
        Advances(p, lines, i);
        RangesOrdered(p, lines, EndOf(p, lines, i));
      }
    }
  }

  ghost predicate Covered(rs: seq<(nat, nat)>, j: nat) {
    exists k :: 0 <= k < |rs| && InRange(rs[k], j)
  }

  /** Every non-blank line is in some range. */
  lemma {:induction false} RangesCover(p: Patterns, lines: seq<string>, i: nat, j: nat)
    requires i <= j < |lines| && !p.blank(lines[j])
    ensures Covered(Ranges(p, lines, i), j)
    decreases |lines| - i
  {
    var all := Ranges(p, lines, i);
    if p.blank(lines[i]) {
      RangesCover(p, lines, i + 1, j);
    } else {
      Advances(p, lines, i);
      var end := EndOf(p, lines, i);
      assert all[0] == (i, end);
      if j < end {
        assert InRange(all[0], j);
      } else {
        var rest := Ranges(p, lines, end);
        RangesCover(p, lines, end, j);
        var k :| 0 <= k < |rest| && InRange(rest[k], j);
        assert all[k + 1] == rest[k];
      }
    }
  }

  /** Every range starts at a non-blank line and has the end the dispatch gives it. */
  lemma {:induction false} RangesStart(p: Patterns, lines: seq<string>, i: nat)
    requires i <= |lines|
    ensures forall k :: 0 <= k < |Ranges(p, lines, i)| ==> StartsBlock(p, lines, Ranges(p, lines, i)[k])
    decreases |lines| - i
  {
    if i < |lines| {
      if p.blank(lines[i]) {
        RangesStart(p, lines, i + 1);
      } else {
        Advances(p, lines, i);
        RangesStart(p, lines, EndOf(p, lines, i));
      }
    }
  }

  ghost predicate StartsBlock(p: Patterns, lines: seq<string>, r: (nat, nat)) {
    r.0 < |lines| && !p.blank(lines[r.0]) && r.1 == EndOf(p, lines, r.0)
  }

  /** The partition: every non-blank line belongs to exactly one block. */
  lemma EachLineOnce(p: Patterns, lines: seq<string>, j: nat) returns (k: nat)
    requires j < |lines| && !p.blank(lines[j])
    ensures k < |Ranges(p, lines, 0)| && InRange(Ranges(p, lines, 0)[k], j)
    ensures forall m :: 0 <= m < |Ranges(p, lines, 0)| && InRange(Ranges(p, lines, 0)[m], j) ==> m == k
  {
    RangesCover(p, lines, 0, j);
    RangesOrdered(p, lines, 0);
    var rs := Ranges(p, lines, 0);
    k :| 0 <= k < |rs| && InRange(rs[k], j);
    assert forall m :: 0 <= m < k ==> rs[m].1 <= rs[k].0;
    assert forall m :: k < m < |rs| ==> rs[k].1 <= rs[m].0;
  }

  /** A fenced block is never cut: it runs from its opening fence up to and including the first
      closing fence after it, or to the end of input, whatever stands in between. */
  lemma FencesStayWhole(p: Patterns, lines: seq<string>, k: nat)
    requires k < |Ranges(p, lines, 0)|
    ensures var (lo, hi) := Ranges(p, lines, 0)[k];
            lo < hi <= |lines| &&
            (IsFence(p, lines[lo]) ==>
              && (forall j :: lo < j < hi - 1 ==> !p.closes(lines[lo], lines[j]))
              && (hi < |lines| ==> lo < hi - 1 && p.closes(lines[lo], lines[hi - 1])))
  {
    RangesStart(p, lines, 0);
    RangesOrdered(p, lines, 0);
    assert StartsBlock(p, lines, Ranges(p, lines, 0)[k]);
  }

  // ---- no block comes out blank ---------------------------------------------------------------------------

  lemma InkNotBlank(s: string, k: nat)
    requires k < |s| && !IsSpace(s[k])
    ensures !Blank(s)
  {
  }

  lemma {:induction false} GlueStarts(lines: seq<string>)
    requires lines != []
    ensures lines[0] <= Glue(lines)
    decreases |lines|
  {
    if |lines| > 1 {
      GlueStarts(lines[..|lines| - 1]);
    } else {
      assert Glue(lines[..0]) == "";
    }
  }

  /** Gluing lines and cutting trailing newlines keeps the ink of the first line. */
  lemma GluedNotBlank(lines: seq<string>)
    requires lines != [] && !Blank(lines[0])
    ensures !Blank(TrimNewlines(Glue(lines)))
  {
    var k, s := InkStart(lines[0]), Glue(lines);
    GlueStarts(lines);
    assert s[k] == lines[0][k];
    assert !IsSpace(s[k]) && s[k] != '\n';
    InkNotBlank(TrimNewlines(s), k);
  }

  /** When the scanner takes for blank only what is blank, no block it makes has blank text. */
  lemma BlockNotBlank(p: Patterns, lines: seq<string>, i: nat)
    requires i < |lines| && !p.blank(lines[i]) && !Blank(lines[i])
    ensures !Blank(BlockAt(p, lines, i).text)
  {
    Advances(p, lines, i);
    if !Classify(p, lines, i).Heading? {
      var run := lines[i..EndOf(p, lines, i)];
      assert run[0] == lines[i];
      GluedNotBlank(run);
    }
  }

  // ---- the scanner object ---------------------------------------------------------------------------------

  class BlockScanner {
    const lines: seq<string>
    const p: Patterns
    var pos: nat

    constructor (lines: seq<string>, p: Patterns)
      ensures this.lines == lines && this.p == p && pos == 0
    {
      this.lines, this.p, pos := lines, p, 0;
    }

    method ConsumeHeading() returns (b: Block)
      requires pos < |lines| && Classify(p, lines, pos) == Heading
      modifies this
      ensures pos == EndOf(p, lines, old(pos)) && b == BlockAt(p, lines, old(pos))
    {
      var line := lines[pos];
      pos := pos + 1;
      var (level, title) := p.heading(line).value;
      b := Block(Heading, level, title, "", line);
    }

    method ConsumeCode() returns (b: Block)
      requires pos < |lines| && Classify(p, lines, pos) == Code
      modifies this
      ensures pos == EndOf(p, lines, old(pos)) && b == BlockAt(p, lines, old(pos))
    {
      ghost var start := pos;
      var open := lines[pos];
      var lang := if p.fence(open).Some? then p.fence(open).value else "";
      var text := open + "\n";
      pos := pos + 1;
      GlueNext(lines, start, start);
      ghost var end := FenceEnd(p, open, lines, pos);
      var closed := false;
      while !closed && pos < |lines|
        invariant InFence(p, open, lines, start, pos, text, closed, end)
        decreases |lines| - pos
      {
        var cur := lines[pos];
        InFenceNext(p, open, lines, start, pos, text, end);
        text := text + cur + "\n";
        pos := pos + 1;
        if p.closes(open, cur) {
          closed := true;
        }
      }
      b := Block(Code, 0, "", lang, TrimNewlines(text));
    }

    /** The four line runs share their loop: read while the construct goes on. */
    method ConsumeTable() returns (b: Block)
      requires pos < |lines| && !p.blank(lines[pos]) && Classify(p, lines, pos) == Table
      modifies this
      ensures pos == EndOf(p, lines, old(pos)) && b == BlockAt(p, lines, old(pos))
    {
      ghost var start, end := pos, RunEnd(p, Table, lines, pos);
      var text := "";
      assert lines[start..start] == [];
      while pos < |lines|
        invariant start <= pos <= |lines| && text == Glue(lines[start..pos]) && RunEnd(p, Table, lines, pos) == end
        decreases |lines| - pos
      {
        var line := lines[pos];
        if p.blank(line) || !p.pipe(line) {
          break;
        }
        GlueNext(lines, start, pos);
        text := text + line + "\n";
        pos := pos + 1;
      }
      b := Block(Table, 0, "", "", TrimNewlines(text));
    }

    method ConsumeList() returns (b: Block)
      requires pos < |lines| && !p.blank(lines[pos]) && Classify(p, lines, pos) == List
      modifies this
      ensures pos == EndOf(p, lines, old(pos)) && b == BlockAt(p, lines, old(pos))
    {
      ghost var start, end := pos, RunEnd(p, List, lines, pos);
      var text := "";
      assert lines[start..start] == [];
      while pos < |lines|
        invariant start <= pos <= |lines| && text == Glue(lines[start..pos]) && RunEnd(p, List, lines, pos) == end
        decreases |lines| - pos
      {
        var line := lines[pos];
        if p.blank(line) || IsHeading(p, line) || IsFence(p, line) {
          break;
        }
        if !p.listItem(line) && !p.indented(line) {
          break;
        }
        GlueNext(lines, start, pos);
        text := text + line + "\n";
        pos := pos + 1;
      }
      b := Block(List, 0, "", "", TrimNewlines(text));
    }

    method ConsumeQuote() returns (b: Block)
      requires pos < |lines| && !p.blank(lines[pos]) && Classify(p, lines, pos) == Quote
      modifies this
      ensures pos == EndOf(p, lines, old(pos)) && b == BlockAt(p, lines, old(pos))
    {
      ghost var start, end := pos, RunEnd(p, Quote, lines, pos);
      var text := "";
      assert lines[start..start] == [];
      while pos < |lines|
        invariant start <= pos <= |lines| && text == Glue(lines[start..pos]) && RunEnd(p, Quote, lines, pos) == end
        decreases |lines| - pos
      {
        var line := lines[pos];
        if !p.quote(line) {
          break;
        }
        GlueNext(lines, start, pos);
        text := text + line + "\n";
        pos := pos + 1;
      }
      b := Block(Quote, 0, "", "", TrimNewlines(text));
    }

    method ConsumeParagraph() returns (b: Block)
      requires pos < |lines| && !p.blank(lines[pos]) && Classify(p, lines, pos) == Paragraph
      modifies this
      ensures pos == EndOf(p, lines, old(pos)) && b == BlockAt(p, lines, old(pos))
    {
      ghost var start, end := pos, RunEnd(p, Paragraph, lines, pos);
      var text := "";
      assert lines[start..start] == [];
      while pos < |lines|
        invariant start <= pos <= |lines| && text == Glue(lines[start..pos]) && RunEnd(p, Paragraph, lines, pos) == end
        decreases |lines| - pos
      {
        var line := lines[pos];
        if p.blank(line) || IsHeading(p, line) || IsFence(p, line) || p.listItem(line) || p.quote(line)
            || IsTableStart(p, lines, pos) {
          break;
        }
        GlueNext(lines, start, pos);
        text := text + line + "\n";
        pos := pos + 1;
      }
      b := Block(Paragraph, 0, "", "", TrimNewlines(text));
    }

    /** The blocks of the lines from `pos` on: one for each range, with its text. */
    method Scan() returns (blocks: seq<Block>)
      requires pos <= |lines|
      modifies this
      ensures pos == |lines| && |blocks| == |Ranges(p, lines, old(pos))|
      ensures forall k :: 0 <= k < |blocks| ==>
                Ranges(p, lines, old(pos))[k].0 < |lines|
                    && blocks[k] == BlockAt(p, lines, Ranges(p, lines, old(pos))[k].0)
    {
      blocks := [];
      ghost var all := Ranges(p, lines, pos);
      while pos < |lines|
        invariant pos <= |lines| && |blocks| <= |all| && all[|blocks|..] == Ranges(p, lines, pos)
        invariant forall k :: 0 <= k < |blocks| ==> all[k].0 < |lines| && blocks[k] == BlockAt(p, lines, all[k].0)
        decreases |lines| - pos
      {
        var line := lines[pos];
        if p.blank(line) {
          pos := pos + 1;
          continue;
        }
        ghost var at := pos;
        Advances(p, lines, pos);
        assert all[|blocks|] == all[|blocks|..][0] == (at, EndOf(p, lines, at));
        assert all[|blocks| + 1..] == all[|blocks|..][1..] == Ranges(p, lines, EndOf(p, lines, at));
        var b: Block;
        if IsFence(p, line) {
          b := ConsumeCode();
        } else if IsHeading(p, line) {
          b := ConsumeHeading();
        } else if IsTableStart(p, lines, pos) {
          b := ConsumeTable();
        } else if p.listItem(line) {
          b := ConsumeList();
        } else if p.quote(line) {
          b := ConsumeQuote();
        } else {
          b := ConsumeParagraph();
        }
        blocks := blocks + [b];
      }
    }
  }

  /** The lines from `start` to `pos` are read, and the closing fence, if seen, was the last of them. */
  ghost predicate InFence(p: Patterns, open: string, lines: seq<string>, start: nat, pos: nat, text: string,
                          closed: bool, end: nat)
  {
    && start < pos <= |lines| && text == Glue(lines[start..pos])
    && if closed then pos == end else FenceEnd(p, open, lines, pos) == end
  }

  lemma InFenceNext(p: Patterns, open: string, lines: seq<string>, start: nat, pos: nat, text: string, end: nat)
    requires pos < |lines| && InFence(p, open, lines, start, pos, text, false, end)
    ensures InFence(p, open, lines, start, pos + 1, text + lines[pos] + "\n", p.closes(open, lines[pos]), end)
  {
    GlueNext(lines, start, pos);
  }

  lemma GlueNext(lines: seq<string>, start: nat, pos: nat)
    requires start <= pos < |lines|
    ensures Glue(lines[start..pos + 1]) == Glue(lines[start..pos]) + lines[pos] + "\n"
    ensures start == pos ==> Glue(lines[start..pos]) == ""
  {
    assert lines[start..pos + 1][..pos - start] == lines[start..pos];
  }

  /** Scanning the body of a document with the program's own expressions: the blocks partition the
      non-blank lines, and none of them is blank. */
  method ScanBody(lines: seq<string>, heading: string -> Option<(nat, string)>, fence: string -> Option<(char, string)>,
                  listItem: string -> bool, quote: string -> bool, tableSep: string -> bool)
    returns (blocks: seq<Block>)
    ensures var p := Compiled(heading, fence, listItem, quote, tableSep);
            && |blocks| == |Ranges(p, lines, 0)|
            && (forall k :: 0 <= k < |blocks| ==>
                  Ranges(p, lines, 0)[k].0 < |lines| && blocks[k] == BlockAt(p, lines, Ranges(p, lines, 0)[k].0))
            && (forall j: nat :: j < |lines| && !Blank(lines[j]) ==> Covered(Ranges(p, lines, 0), j))
    ensures forall k :: 0 <= k < |blocks| ==> !Blank(blocks[k].text)
  {
    var p := Compiled(heading, fence, listItem, quote, tableSep);
    var scanner := new BlockScanner(lines, p);
    blocks := scanner.Scan();
    forall k | 0 <= k < |blocks|
      ensures !Blank(blocks[k].text)
    {
      RangesStart(p, lines, 0);
      assert StartsBlock(p, lines, Ranges(p, lines, 0)[k]);
      BlockNotBlank(p, lines, Ranges(p, lines, 0)[k].0);
    }
    forall j: nat | j < |lines| && !Blank(lines[j])
      ensures Covered(Ranges(p, lines, 0), j)
    {
      RangesCover(p, lines, 0, j);
    }
  }
}
