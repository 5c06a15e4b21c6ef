/** From text to tokens and back: the two tokenizers, and the results above for whole inputs. */
module CalcText {
  import opened Basics
  import opened Calculator
  import opened CalcDialects
  import opened CalcRoundTrip

  function SymbolOf(c: char): Option<Token> {
    if c == '+' then Some(Plus)
    else if c == '-' then Some(Minus)
    else if c == '*' then Some(Times)
    else if c == '/' then Some(Over)
    else if c == '(' then Some(Open)
    else if c == ')' then Some(Close)
    else None
  }

  /** Tokens finished so far, and the word being collected. */
  datatype Lexing = Lexing(tokens: seq<Token>, current: string)

  function Flush(l: Lexing): seq<Token> {
    if l.current == "" then l.tokens else l.tokens + [Word(l.current)]
  }

  /** The calculator skips blanks even inside a word; the demo has none left to skip. */
  function LexChar(d: Dialect, l: Lexing, c: char): Lexing {
    if d.Builtin? && (c == ' ' || c == '\t') then l
    else if SymbolOf(c).Some? then Lexing(Flush(l) + [SymbolOf(c).value], "")
    else Lexing(l.tokens, l.current + [c])
  }

  function Lex(d: Dialect, s: string): Lexing {
    if s == "" then Lexing([], "") else LexChar(d, Lex(d, s[..|s| - 1]), s[|s| - 1])
  }

  /** ReplaceAll(expr, " ", ""). */
  function Strip(s: string): string {
    if s == "" then ""
    else if s[|s| - 1] == ' ' then Strip(s[..|s| - 1])
    else Strip(s[..|s| - 1]) + [s[|s| - 1]]
  }

  predicate Allowed(c: char) {
    '0' <= c <= '9' || c == '.' || SymbolOf(c).Some?
  }

  datatype Answer<N> = Value(n: N) | EmptyExpression | InvalidCharacter(c: char) | Failed(error: Error)

  function Answered<N>(r: Parsed<N>): Answer<N> {
    match r
    case Ok(v, _) => Value(v)
    case Err(e) => Failed(e)
  }

  /** The first character the demo does not allow. */
  function FirstBad(s: string, i: nat): Option<char>
    requires i <= |s|
    decreases |s| - i
  {
    if i == |s| then None else if Allowed(s[i]) then FirstBad(s, i + 1) else Some(s[i])
  }

  function EvalText<N>(a: Arith<N>, s: string): Answer<N> {
    Answered(Evaluate(Builtin, a, Flush(Lex(Builtin, s))))
  }

  function SimpleText<N>(a: Arith<N>, s: string): Answer<N> {
    var t := Strip(s);
    if t == "" then EmptyExpression
    else if FirstBad(t, 0).Some? then InvalidCharacter(FirstBad(t, 0).value)
    else Answered(Evaluate(Demo, a, Flush(Lex(Demo, t))))
  }

  // ---- the tokenizers agree ------------------------------------------------------------------------

  lemma {:induction false} LexStripped(s: string)
    requires forall i :: 0 <= i < |s| ==> s[i] != '\t'
    ensures Lex(Builtin, s) == Lex(Demo, Strip(s))
    decreases |s|
  {
    if s != "" {
      var front, c := s[..|s| - 1], s[|s| - 1];
      LexStripped(front);
      if c != ' ' {
        assert (Strip(front) + [c])[..|Strip(front)|] == Strip(front);
      }
    }
  }

  lemma {:induction false} StripKeeps(s: string, i: nat) returns (j: nat)
    requires i < |s| && s[i] != ' '
    ensures j < |Strip(s)| && Strip(s)[j] == s[i]
    decreases |s|
  {
    if i == |s| - 1 {
      j := |Strip(s)| - 1;
    } else {
      j := StripKeeps(s[..|s| - 1], i);
    }
  }

  lemma {:induction false} NoneBad(s: string, i: nat, j: nat)
    requires i <= j < |s| && FirstBad(s, i).None?
    ensures Allowed(s[j])
    decreases |s| - i
  {
    if i < j {
      NoneBad(s, i + 1, j);
    }
  }

  /** For every text both evaluators accept, they return the same value. */
  lemma TextsAgree<N>(a: Arith<N>, s: string)
    requires EvalText(a, s).Value? && SimpleText(a, s).Value?
    ensures EvalText(a, s) == SimpleText(a, s)
  {
    forall i: nat | i < |s|
      ensures s[i] != '\t'
    {
      if s[i] == '\t' {
        var j := StripKeeps(s, i);
        NoneBad(Strip(s), 0, j);
      }
    }
    LexStripped(s);
    EvaluatorsAgree(a, Flush(Lex(Demo, Strip(s))));
  }

  // ---- reading printed text ------------------------------------------------------------------------

  function SymbolText(t: Token): string {
    match t
    case Plus => "+"
    case Minus => "-"
    case Times => "*"
    case Over => "/"
    case Open => "("
    case Close => ")"
    case Word(w) => w
  }

  function Text(toks: seq<Token>): string {
    if toks == [] then "" else Text(toks[..|toks| - 1]) + SymbolText(toks[|toks| - 1])
  }

  predicate Plain(c: char) {
    c != ' ' && c != '\t' && SymbolOf(c).None?
  }

  /** A word the tokenizer can return whole. */
  ghost predicate Clean(w: string) {
    w != "" && forall i :: 0 <= i < |w| ==> Plain(w[i])
  }

  /** Words are clean, and a symbol stands between any two of them. */
  ghost predicate Legible(toks: seq<Token>) {
    && (forall i :: 0 <= i < |toks| && toks[i].Word? ==> Clean(toks[i].text))
    && (forall i :: 0 <= i < |toks| - 1 ==> !(toks[i].Word? && toks[i + 1].Word?))
  }

  lemma LexPush(d: Dialect, s: string, c: char)
    ensures Lex(d, s + [c]) == LexChar(d, Lex(d, s), c)
  {
    assert (s + [c])[..|s + [c]| - 1] == s;
  }

  lemma LexPlain(d: Dialect, s: string, c: char)
    requires Plain(c)
    ensures Lex(d, s + [c]) == Lexing(Lex(d, s).tokens, Lex(d, s).current + [c])
  {
    LexPush(d, s, c);
  }

  lemma PushTake(s: string, w: string, n: nat)
    requires n < |w|
    ensures s + w[..n + 1] == (s + w[..n]) + [w[n]]
  {
  }

  /** Collecting the first `n` characters of a clean word. */
  lemma {:induction false} LexWord(d: Dialect, s: string, w: string, n: nat)
    requires n <= |w| && forall i :: 0 <= i < n ==> Plain(w[i])
    ensures Lex(d, s + w[..n]) == Lexing(Lex(d, s).tokens, Lex(d, s).current + w[..n])
    decreases n
  {
    if n == 0 {
      assert s + w[..0] == s;
      assert Lex(d, s).current + w[..0] == Lex(d, s).current;
    } else {
      var front := w[..n - 1];
      LexWord(d, s, w, n - 1);
      LexPlain(d, s + front, w[n - 1]);
      PushTake(s, w, n - 1);
      PushTake(Lex(d, s).current, w, n - 1);
    }
  }

  lemma LegibleFront(toks: seq<Token>)
    requires toks != [] && Legible(toks)
    ensures var front, last := toks[..|toks| - 1], toks[|toks| - 1];
            Legible(front) && (last.Word? ==> Clean(last.text) && (front == [] || !front[|front| - 1].Word?))
  {
    var front := toks[..|toks| - 1];
    assert forall i :: 0 <= i < |front| ==> front[i] == toks[i];
  }

  /** A symbol ends the word being collected. */
  lemma LexSymbol(d: Dialect, s: string, done: seq<Token>, sym: Token)
    requires !sym.Word? && Flush(Lex(d, s)) == done
    ensures Lex(d, s + SymbolText(sym)) == Lexing(done + [sym], "")
  {
    SymbolRoundTrip(sym);
    LexPush(d, s, SymbolText(sym)[0]);
  }

  /** After a symbol a clean word is collected whole. */
  lemma LexClean(d: Dialect, s: string, done: seq<Token>, w: string)
    requires Clean(w) && Lex(d, s) == Lexing(done, "")
    ensures Lex(d, s + w) == Lexing(done, w)
  {
    LexWord(d, s, w, |w|);
    assert w[..|w|] == w;
    assert "" + w == w;
  }

  /** Where the tokenizer is after the text of `toks`: a final word is still being collected. */
  ghost predicate LexedTo(l: Lexing, toks: seq<Token>) {
    if toks != [] && toks[|toks| - 1].Word? then
      l == Lexing(toks[..|toks| - 1], toks[|toks| - 1].text) && l.current != ""
    else l == Lexing(toks, "")
  }

  lemma LexedFlush(l: Lexing, toks: seq<Token>)
    requires LexedTo(l, toks)
    ensures Flush(l) == toks
  {
    if toks != [] {
      assert toks == toks[..|toks| - 1] + [toks[|toks| - 1]];
    }
  }

  lemma {:induction false} LexReads(d: Dialect, toks: seq<Token>)
    requires Legible(toks)
    ensures Flush(Lex(d, Text(toks))) == toks && LexedTo(Lex(d, Text(toks)), toks)
    decreases |toks|
  {
    if toks != [] {
      var front, last := toks[..|toks| - 1], toks[|toks| - 1];
      assert toks == front + [last];
      LegibleFront(toks);
      LexReads(d, front);
      if last.Word? {
        LexClean(d, Text(front), front, last.text);
      } else {
        LexSymbol(d, Text(front), front, last);
      }
    }
    LexedFlush(Lex(d, Text(toks)), toks);
  }

  lemma SymbolRoundTrip(t: Token)
    requires !t.Word?
    ensures |SymbolText(t)| == 1 && SymbolText(t) == [SymbolText(t)[0]] && SymbolOf(SymbolText(t)[0]) == Some(t)
    ensures SymbolText(t)[0] != ' ' && SymbolText(t)[0] != '\t'
  {
  }

  /** Every operand's text is one the tokenizer can return whole. */
  ghost predicate CleanExpr(e: Expr) {
    match e
    case Num(t) => Clean(t)
    case Neg(x) => CleanExpr(x)
    case Bin(op, l, r) => IsOperator(op) && CleanExpr(l) && CleanExpr(r)
  }

  lemma LegibleAround(x: seq<Token>, sym: Token, y: seq<Token>)
    requires Legible(x) && Legible(y) && !sym.Word?
    ensures Legible(x + ([sym] + y))
  {
    var s := x + ([sym] + y);
    assert forall i :: 0 <= i < |x| ==> s[i] == x[i];
    assert s[|x|] == sym;
    assert forall i :: |x| < i < |s| ==> s[i] == y[i - |x| - 1];
  }

  lemma {:induction false} PrintLegible(d: Dialect, e: Expr, level: nat)
    requires CleanExpr(e)
    ensures Legible(Print(d, e, level)) && Legible(Bare(d, e))
    decreases e
  {
    match e {
      case Num(_) =>
      case Neg(x) =>
        PrintLegible(d, x, SignedLevel(d));
        LegibleAround([], Minus, Print(d, x, SignedLevel(d)));
        assert [] + ([Minus] + Print(d, x, SignedLevel(d))) == Bare(d, e);
      case Bin(op, l, r) =>
        PrintLegible(d, l, Level(e));
        PrintLegible(d, r, Level(e) + 1);
        LegibleAround(Print(d, l, Level(e)), op, Print(d, r, Level(e) + 1));
    }
    var bare := Bare(d, e);
    LegibleAround(bare, Close, []);
    assert bare + ([Close] + []) == bare + [Close];
    LegibleAround([], Open, bare + [Close]);
    assert [] + ([Open] + (bare + [Close])) == [Open] + (bare + [Close]);
  }

  /** Print an expression as text and evaluate the text: the tree's own value or error. */
  lemma PrintedTextEvaluates<N>(a: Arith<N>, e: Expr)
    requires Good(Builtin, a, e) && CleanExpr(e)
    ensures EvalText(a, Text(Print(Builtin, e, 1))) == Answered(Outcome(Eval(Builtin, a, e), 0))
  {
    PrintLegible(Builtin, e, 1);
    LexReads(Builtin, Print(Builtin, e, 1));
    RoundTrip(Builtin, a, e);
  }

  // ---- what texts mean ---------------------------------------------------------------------------

  /** Two operands with an operator between them. */
  lemma BinaryText(d: Dialect, x: string, op: Token, y: string)
    requires Clean(x) && Clean(y) && !op.Word?
    ensures Flush(Lex(d, x + SymbolText(op) + y)) == [Word(x), op, Word(y)]
  {
    var toks := [Word(x), op, Word(y)];
    assert toks[..2] == [Word(x), op] && [Word(x), op][..1] == [Word(x)] && [Word(x)][..0] == [];
    assert Text([Word(x)]) == "" + x == x;
    assert Text([Word(x), op]) == x + SymbolText(op);
    assert Text(toks) == x + SymbolText(op) + y;
    LexReads(d, toks);
  }

  /** The four operators as they are written. */
  lemma TextsMean<N>(a: Arith<N>, x: string, y: string, v: N, w: N)
    requires Clean(x) && Clean(y) && Numeral(a, x, v) && Numeral(a, y, w)
    ensures EvalText(a, x + "+" + y) == Value(a.add(v, w))
    ensures EvalText(a, x + "-" + y) == Value(a.sub(v, w))
    ensures EvalText(a, x + "*" + y) == Value(a.mul(v, w))
    ensures EvalText(a, x + "/" + y) == if a.isZero(w) then Failed(DivisionByZero) else Value(a.div(v, w))
  {
    OperatorsMean(Builtin, a, x, y, v, w);
    BinaryText(Builtin, x, Plus, y);
    BinaryText(Builtin, x, Minus, y);
    BinaryText(Builtin, x, Times, y);
    BinaryText(Builtin, x, Over, y);
  }

  /** Parentheses as they are written: they group, and an open one must be closed. */
  lemma ParensMean<N>(a: Arith<N>, x: string, v: N)
    requires Clean(x) && Numeral(a, x, v)
    ensures EvalText(a, "(" + x + ")") == Value(v) && EvalText(a, "(" + x) == Failed(MissingParen)
  {
    var toks := [Open, Word(x), Close];
    assert toks[..2] == [Open, Word(x)] && [Open, Word(x)][..1] == [Open] && [Open][..0] == [];
    assert Text([Open]) == "" + "(" == "(";
    assert Text([Open, Word(x)]) == "(" + x;
    assert Text(toks) == "(" + x + ")";
    LexReads(Builtin, toks);
    LexReads(Builtin, [Open, Word(x)]);
    ErrorsMean(Builtin, a, x, v, Close);
  }

  /** Digits and points are all a demo operand can be made of. */
  ghost predicate Figures(x: string) {
    x != "" && forall i :: 0 <= i < |x| ==> x[i] in "0123456789."
  }

  lemma FigureIsPlain(c: char)
    requires c in "0123456789."
    ensures Plain(c) && Allowed(c)
  {
    var i :| 0 <= i < 11 && "0123456789."[i] == c;
  }

  lemma FiguresAreClean(x: string)
    requires Figures(x)
    ensures Clean(x)
  {
    forall i | 0 <= i < |x|
      ensures Plain(x[i])
    {
      FigureIsPlain(x[i]);
    }
  }

  /** Removing spaces works piece by piece and leaves text without spaces as it is. */
  lemma {:induction false} StripJoins(x: string, y: string)
    ensures Strip(x + y) == Strip(x) + Strip(y)
    ensures (forall i :: 0 <= i < |y| ==> y[i] != ' ') ==> Strip(y) == y
    ensures Strip(" ") == ""
    decreases |y|
  {
    assert " "[..0] == "";
    if y == "" {
      assert x + y == x;
    } else {
      assert (x + y)[..|x + y| - 1] == x + y[..|y| - 1];
      StripJoins(x, y[..|y| - 1]);
    }
  }

  /** The demo refuses exactly the texts with a character outside its alphabet, and names the first. */
  lemma {:induction false} FirstBadExact(s: string, i: nat) returns (k: nat)
    requires i <= |s|
    ensures i <= k <= |s| && forall j :: i <= j < k ==> s[j] in "0123456789+-*/()."
    ensures k < |s| ==> s[k] !in "0123456789+-*/()." && FirstBad(s, i) == Some(s[k])
    ensures k == |s| ==> FirstBad(s, i) == None
    decreases |s| - i
  {
    k := i;
    if i < |s| {
      AlphabetExact(s[i]);
      if Allowed(s[i]) {
        k := FirstBadExact(s, i + 1);
      }
    }
  }

  lemma AlphabetExact(c: char)
    ensures Allowed(c) <==> c in "0123456789+-*/()."
  {
    var alphabet := "0123456789+-*/().";
    if c in alphabet {
      var i :| 0 <= i < 17 && alphabet[i] == c;
    }
    if '0' <= c <= '9' {
      assert alphabet[c as int - '0' as int] == c;
    }
    assert alphabet[10] == '+' && alphabet[11] == '-' && alphabet[12] == '*' && alphabet[13] == '/';
    assert alphabet[14] == '(' && alphabet[15] == ')' && alphabet[16] == '.';
  }

  /** The same for the demo. */
  lemma DemoTextsMean<N>(a: Arith<N>, x: string, y: string, v: N, w: N)
    requires Figures(x) && Figures(y) && Numeral(a, x, v) && Numeral(a, y, w)
    ensures SimpleText(a, x + "+" + y) == Value(a.add(v, w))
    ensures SimpleText(a, x + "-" + y) == Value(a.sub(v, w))
    ensures SimpleText(a, x + "*" + y) == Value(a.mul(v, w))
    ensures SimpleText(a, x + "/" + y) == if a.isZero(w) then Failed(DivisionByZero) else Value(a.div(v, w))
  {
    FiguresAreClean(x);
    FiguresAreClean(y);
    OperatorsMean(Demo, a, x, y, v, w);
    DemoBinary(a, x, Plus, y);
    DemoBinary(a, x, Minus, y);
    DemoBinary(a, x, Times, y);
    DemoBinary(a, x, Over, y);
  }

  lemma DemoBinary<N>(a: Arith<N>, x: string, op: Token, y: string)
    requires Figures(x) && Figures(y) && IsOperator(op) && Clean(x) && Clean(y)
    ensures SimpleText(a, x + SymbolText(op) + y) == Answered(Evaluate(Demo, a, [Word(x), op, Word(y)]))
  {
    var s := x + SymbolText(op) + y;
    SymbolRoundTrip(op);
    forall i | 0 <= i < |s|
      ensures Allowed(s[i]) && s[i] != ' '
    {
      if i < |x| {
        FigureIsPlain(x[i]);
      } else if i > |x| {
        assert s[i] == y[i - |x| - 1];
        FigureIsPlain(y[i - |x| - 1]);
      }
    }
    StripJoins("", s);
    NoneIsBad(s, 0);
    BinaryText(Demo, x, op, y);
  }

  lemma {:induction false} NoneIsBad(s: string, i: nat)
    requires i <= |s| && forall j :: i <= j < |s| ==> Allowed(s[j])
    ensures FirstBad(s, i).None?
    decreases |s| - i
  {
    if i < |s| {
      NoneIsBad(s, i + 1);
    }
  }
}
