/** What a scanned block is, read off its lines: its kind, its extent, and what its text holds. */
module ScanContent {
  import opened Basics
  import opened Markdown
  import opened Scanner

  /** The dispatch asks in a fixed order: fence, heading, table, list, quote, paragraph. */
  lemma KindsExact(p: Patterns, lines: seq<string>, i: nat)
    requires i < |lines|
    ensures var kind, line := BlockAt(p, lines, i).kind, lines[i];
            && (kind == Code <==> p.fence(line).Some?)
            && (kind == Heading <==> p.fence(line).None? && p.heading(line).Some?)
            && (p.fence(line).None? && p.heading(line).None? ==>
                  var table := i + 1 < |lines| && p.pipe(line) && p.tableSep(lines[i + 1]);
                  && (kind == Table <==> table)
                  && (kind == List <==> !table && p.listItem(line))
                  && (kind == Quote <==> !table && !p.listItem(line) && p.quote(line))
                  && (kind == Paragraph <==> !table && !p.listItem(line) && !p.quote(line)))
  {
  }

  /** A heading is one line, with the level and title its pattern captures. */
  lemma HeadingExact(p: Patterns, lines: seq<string>, i: nat, level: nat, title: string)
    requires i < |lines| && p.fence(lines[i]).None? && p.heading(lines[i]) == Some((level, title))
    ensures BlockAt(p, lines, i) == Block(Heading, level, title, "", lines[i]) && EndOf(p, lines, i) == i + 1
  {
  }

  /** Whether a table, list, quote or paragraph takes line `j`. */
  predicate Takes(p: Patterns, kind: BlockType, lines: seq<string>, j: nat)
    requires j < |lines|
  {
    var line := lines[j];
    var special := p.heading(line).Some? || p.fence(line).Some?;
    if kind == Table then !p.blank(line) && p.pipe(line)
    else if kind == List then !p.blank(line) && !special && (p.listItem(line) || p.indented(line))
    else if kind == Quote then p.quote(line)
    else
      && !p.blank(line) && !special && !p.listItem(line) && !p.quote(line)
      && !(j + 1 < |lines| && p.pipe(line) && p.tableSep(lines[j + 1]))
  }

  /** A table, list, quote or paragraph takes every line up to the first it does not go on over. */
  lemma RunExact(p: Patterns, lines: seq<string>, i: nat)
    requires i < |lines| && p.fence(lines[i]).None? && p.heading(lines[i]).None?
    ensures var kind, end := BlockAt(p, lines, i).kind, EndOf(p, lines, i);
            && i <= end <= |lines| && (forall j :: i <= j < end ==> Takes(p, kind, lines, j))
            && (end < |lines| ==> !Takes(p, kind, lines, end))
  {
    var kind, end := BlockAt(p, lines, i).kind, EndOf(p, lines, i);
    assert forall j :: i <= j < |lines| ==> (GoesOn(p, kind, lines, j) <==> Takes(p, kind, lines, j));
  }

  /** Gluing puts every line where the one before it ends, a newline between. */
  lemma {:induction false} GlueLaysOut(lines: seq<string>) returns (s: string, off: seq<nat>)
    requires lines != []
    ensures Glue(lines) == s + "\n" && LaidOut(s, lines, "\n", off)
    decreases |lines|
  {
    var front, last := lines[..|lines| - 1], lines[|lines| - 1];
    if front == [] {
      s, off := last, [0];
      LayOne(last, "\n");
      assert lines == [last];
      assert Glue(lines) == "" + last + "\n" == last + "\n";
    } else {
      s, off := GlueLaysOut(front);
      off := LayNext(s, front, "\n", off, last);
      s := s + "\n" + last;
      assert lines == front + [last];
    }
  }

  /** `t` is `s` without the newlines at its end. */
  ghost predicate Chomped(s: string, t: string) {
    t <= s && (forall j :: |t| <= j < |s| ==> s[j] == '\n') && (t != "" ==> t[|t| - 1] != '\n')
  }

  /** Any other block holds its lines in order, a newline between neighbours, without the newlines
      at its end; a fenced block also has the language its opening captures. */
  lemma BodyExact(p: Patterns, lines: seq<string>, i: nat) returns (s: string, off: seq<nat>)
    requires i < |lines| && !p.blank(lines[i]) && (p.fence(lines[i]).Some? || p.heading(lines[i]).None?)
    ensures i < EndOf(p, lines, i) <= |lines| && LaidOut(s, lines[i..EndOf(p, lines, i)], "\n", off)
    ensures Chomped(s, BlockAt(p, lines, i).text)
    ensures BlockAt(p, lines, i).level == 0 && BlockAt(p, lines, i).title == ""
    ensures BlockAt(p, lines, i).lang == if p.fence(lines[i]).Some? then p.fence(lines[i]).value else ""
  {
    Advances(p, lines, i);
    s, off := GlueLaysOut(lines[i..EndOf(p, lines, i)]);
    ChompOne(s);
  }

  lemma ChompOne(s: string)
    ensures Chomped(s, TrimNewlines(s + "\n"))
  {
    assert (s + "\n")[..|s + "\n"| - 1] == s;
  }

  /** The program's own questions about a line. */
  lemma CompiledMeans(heading: string -> Option<(nat, string)>, fence: string -> Option<(char, string)>,
                      listItem: string -> bool, quote: string -> bool, tableSep: string -> bool, line: string)
    ensures var p := Compiled(heading, fence, listItem, quote, tableSep);
            && (p.blank(line) <==> forall j :: 0 <= j < |line| ==> IsSpace(line[j]))
            && (heading(line).None? ==> p.heading(line).None?)
            && (heading(line).Some? ==>
                  p.heading(line) == Some((heading(line).value.0, TrimSpace(heading(line).value.1))))
            && (fence(TrimSpace(line)).Some? ==> p.fence(line) == Some(fence(TrimSpace(line)).value.1))
            && (p.indented(line) <==> (|line| >= 2 && line[0] == line[1] == ' ') || (|line| >= 1 && line[0] == '\t'))
            && (p.pipe(line) <==> exists j :: 0 <= j < |line| && line[j] == '|')
            && p.listItem(line) == listItem(line) && p.quote(line) == quote(line) && p.tableSep(line) == tableSep(line)
  {
    if line != "" && IsSpace(line[0]) {
      assert InkStart(line) == |line| <==> forall j :: 0 <= j < |line| ==> IsSpace(line[j]);
    }
  }

  /** Which lines close a fence: three or more of its own character and nothing else. */
  lemma FencesClose()
    ensures IsClosingFence("```", '`') && IsClosingFence("`````", '`') && IsClosingFence("~~~", '~')
    ensures !IsClosingFence("``", '`') && !IsClosingFence("~~~", '`') && !IsClosingFence("```go", '`')
  {
    RunesWithinBytes("```");
    RunesWithinBytes("`````");
    RunesWithinBytes("~~~");
    assert "``"[..1] == "`" && "`"[..0] == "";
    assert "~~~"[0] == '~' && "```go"[3] == 'g';
  }
}
