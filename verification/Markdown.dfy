/** Blocks of a parsed document, and the text measures the chunker uses. */
module Markdown {
  datatype BlockType = Heading | Paragraph | Code | Table | List | Quote

  datatype Block = Block(kind: BlockType, level: nat, title: string, lang: string, text: string)

  /** Bytes of one character in UTF-8 (section 3 of RFC 3629). */
  function Width(c: char): nat {
    if c as int < 0x80 then 1 else if c as int < 0x800 then 2 else if c as int < 0x10000 then 3 else 4
  }

  /** The length Go's `len` reports for a string. */
  function ByteLen(s: string): nat {
    if s == "" then 0 else ByteLen(s[..|s| - 1]) + Width(s[|s| - 1])
  }

  lemma {:induction false} RunesWithinBytes(s: string)
    ensures |s| <= ByteLen(s)
    decreases |s|
  {
    if s != "" {
      RunesWithinBytes(s[..|s| - 1]);
    }
  }

  /** The White_Space characters of Unicode, as `unicode.IsSpace` has them. */
  predicate IsSpace(c: char) {
    var n := c as int;
    (9 <= n <= 13) || n == 32 || n == 0x85 || n == 0xA0 || n == 0x1680 || (0x2000 <= n <= 0x200A)
    || n == 0x2028 || n == 0x2029 || n == 0x202F || n == 0x205F || n == 0x3000
  }

  /** Index of the first character from `i` on that is not white space, or the length. */
  function InkFrom(s: string, i: nat): (k: nat)
    requires i <= |s|
    ensures i <= k <= |s| && (forall j :: i <= j < k ==> IsSpace(s[j])) && (k < |s| ==> !IsSpace(s[k]))
    decreases |s| - i
  {
    if i == |s| || !IsSpace(s[i]) then i else InkFrom(s, i + 1)
  }

  /** One past the last character before `i` that is not white space, or zero. */
  function InkBefore(s: string, i: nat): (k: nat)
    requires i <= |s|
    ensures k <= i && (forall j :: k <= j < i ==> IsSpace(s[j])) && (k > 0 ==> !IsSpace(s[k - 1]))
  {
    if i == 0 || !IsSpace(s[i - 1]) then i else InkBefore(s, i - 1)
  }

  function InkStart(s: string): nat {
    InkFrom(s, 0)
  }

  function InkEnd(s: string): nat {
    InkBefore(s, |s|)
  }

  predicate Blank(s: string) {
    InkStart(s) == |s|
  }

  function TrimSpace(s: string): (t: string)
    ensures |t| <= |s|
    ensures t == "" <==> Blank(s)
  {
    if Blank(s) then "" else s[InkStart(s)..InkEnd(s)]
  }

  ghost predicate Contains(s: string, t: string) {
    exists i, j :: 0 <= i <= j <= |s| && s[i..j] == t
  }

  lemma SubSlice(s: string, lo: nat, i: nat, j: nat, hi: nat)
    requires lo <= i <= j <= hi <= |s|
    ensures s[lo..hi][i - lo..j - lo] == s[i..j]
  {
    assert forall k :: 0 <= k < j - i ==> s[lo..hi][i - lo..j - lo][k] == s[i..j][k];
  }

  lemma InkWithin(s: string, off: nat, end: nat)
    requires off <= end <= |s| && !Blank(s[off..end])
    ensures InkStart(s[off..end]) < InkEnd(s[off..end])
    ensures InkStart(s) <= off + InkStart(s[off..end]) && off + InkEnd(s[off..end]) <= InkEnd(s)
  {
    var p, q := InkStart(s[off..end]), InkEnd(s[off..end]);
    assert s[off + p] == s[off..end][p];
    assert q > 0 && s[off + q - 1] == s[off..end][q - 1];
  }

  lemma SliceContains(s: string, lo: nat, i: nat, j: nat, hi: nat)
    requires lo <= i <= j <= hi <= |s|
    ensures Contains(s[lo..hi], s[i..j])
  {
    SubSlice(s, lo, i, j, hi);
    var t := s[lo..hi];
    assert t[i - lo..j - lo] == s[i..j];
  }

  lemma TrimIsSlice(s: string)
    requires !Blank(s)
    ensures InkStart(s) <= InkEnd(s) && TrimSpace(s) == s[InkStart(s)..InkEnd(s)]
  {
  }

  lemma PartTrimmed(s: string, off: nat, end: nat) returns (i: nat, j: nat)
    requires off <= end <= |s| && !Blank(s[off..end])
    ensures InkStart(s) <= i < j <= InkEnd(s) && off <= i < j <= end && TrimSpace(s[off..end]) == s[i..j]
  {
    var p, q := InkStart(s[off..end]), InkEnd(s[off..end]);
    InkWithin(s, off, end);
    i, j := off + p, off + q;
    SubSlice(s, off, i, j, end);
  }

  /** Trimming the whole keeps every trimmed part. */
  lemma TrimKeepsPart(s: string, off: nat, end: nat)
    requires off <= end <= |s| && !Blank(s[off..end])
    ensures !Blank(s) && Contains(TrimSpace(s), TrimSpace(s[off..end]))
  {
    var i, j := PartTrimmed(s, off, end);
    TrimIsSlice(s);
    SliceContains(s, InkStart(s), i, j, InkEnd(s));
  }

  /** Exactly the white space at both ends is cut off. */
  lemma TrimExact(s: string) returns (i: nat, j: nat)
    ensures i <= j <= |s| && TrimSpace(s) == s[i..j]
    ensures forall k :: 0 <= k < i || j <= k < |s| ==> IsSpace(s[k])
    ensures i < j ==> !IsSpace(s[i]) && !IsSpace(s[j - 1])
  {
    if Blank(s) {
      i, j := 0, 0;
    } else {
      i, j := InkStart(s), InkEnd(s);
    }
  }

  // ---- texts one after another ---------------------------------------------------------------------

  /** Text `k` stands in `s` at `off[k]`. */
  ghost predicate StandsAt(s: string, texts: seq<string>, off: seq<nat>, k: nat)
    requires k < |texts| == |off|
  {
    off[k] + |texts[k]| <= |s| && s[off[k]..off[k] + |texts[k]|] == texts[k]
  }

  /** After text `k` comes the separator, and then the next text. */
  ghost predicate Separated(s: string, texts: seq<string>, sep: string, off: seq<nat>, k: nat)
    requires k + 1 < |texts| == |off|
  {
    var end := off[k] + |texts[k]|;
    off[k + 1] == end + |sep| <= |s| && s[end..end + |sep|] == sep
  }

  /** `s` is the texts in their order, the first at its start and the last at its end, with the
      separator between any two neighbours and nothing else. */
  ghost predicate LaidOut(s: string, texts: seq<string>, sep: string, off: seq<nat>) {
    && |off| == |texts| && (texts == [] ==> s == "")
    && (texts != [] ==> off[0] == 0 && off[|off| - 1] + |texts[|off| - 1]| == |s|)
    && (forall k :: 0 <= k < |texts| ==> StandsAt(s, texts, off, k))
    && (forall k :: 0 <= k < |texts| - 1 ==> Separated(s, texts, sep, off, k))
  }

  /** One more text at the end. */
  lemma LayNext(s: string, texts: seq<string>, sep: string, off: seq<nat>, t: string) returns (off': seq<nat>)
    requires LaidOut(s, texts, sep, off) && texts != []
    ensures LaidOut(s + sep + t, texts + [t], sep, off')
  {
    var longer, more := s + sep + t, texts + [t];
    off' := off + [|s| + |sep|];
    forall k | 0 <= k < |more|
      ensures StandsAt(longer, more, off', k)
    {
      if k < |texts| {
        assert StandsAt(s, texts, off, k);
        assert longer[off[k]..off[k] + |texts[k]|] == s[off[k]..off[k] + |texts[k]|];
      }
    }
    forall k | 0 <= k < |more| - 1
      ensures Separated(longer, more, sep, off', k)
    {
      if k < |texts| - 1 {
        assert Separated(s, texts, sep, off, k);
        var end := off[k] + |texts[k]|;
        assert longer[end..end + |sep|] == s[end..end + |sep|];
      } else {
        assert longer[|s|..|s| + |sep|] == sep;
      }
    }
  }

  lemma LayOne(t: string, sep: string)
    ensures LaidOut(t, [t], sep, [0])
  {
    assert StandsAt(t, [t], [0], 0);
  }

  /** What `Width` and `IsSpace` say at the edges of their ranges. */
  lemma WidthsAndSpaces()
    ensures ByteLen("a") == 1 && ByteLen("\U{7F}\U{80}\U{7FF}") == 5 && ByteLen("\U{800}\U{FFFD}\U{10000}") == 10
    ensures IsSpace(' ') && IsSpace('\t') && IsSpace('\n') && IsSpace('\r') && IsSpace('\U{A0}') && IsSpace('\U{3000}')
    ensures !IsSpace('a') && !IsSpace('0') && !IsSpace('\U{200B}') && !IsSpace('\U{0}')
  {
    var s, t := "\U{7F}\U{80}\U{7FF}", "\U{800}\U{FFFD}\U{10000}";
    assert "a"[..0] == "";
    assert s[..2] == "\U{7F}\U{80}" && s[..2][..1] == "\U{7F}" && s[..2][..1][..0] == "";
    assert t[..2] == "\U{800}\U{FFFD}" && t[..2][..1] == "\U{800}" && t[..2][..1][..0] == "";
  }
}
