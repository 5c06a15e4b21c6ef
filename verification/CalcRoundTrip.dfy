/** Printing an expression, with parentheses only where levels call for them, and evaluating
    the result: left associativity, precedence and errors all come back. */
module CalcRoundTrip {
  import opened Basics
  import opened Calculator

  datatype Expr =
    | Num(text: string)
    | Neg(arg: Expr)
    | Bin(op: Token, left: Expr, right: Expr)

  /** Operands are tokens with a value; binary nodes carry one of the four operators. */
  ghost predicate Good<N>(d: Dialect, a: Arith<N>, e: Expr) {
    match e
    case Num(t) => t != "" && AtomValue(d, a, Word(t)).Some?
    case Neg(x) => Good(d, a, x)
    case Bin(op, l, r) => IsOperator(op) && Good(d, a, l) && Good(d, a, r)
  }

  datatype Value<N> = Val(n: N) | Fail(error: Error)

  /** The meaning of a tree: operands left to right, the first error wins. */
  function Eval<N>(d: Dialect, a: Arith<N>, e: Expr): Value<N> {
    match e
    case Num(t) => if AtomValue(d, a, Word(t)).Some? then Val(AtomValue(d, a, Word(t)).value)
        else Fail(BadNumber(Word(t)))
    case Neg(x) => (match Eval(d, a, x) case Val(n) => Val(a.neg(n)) case Fail(err) => Fail(err))
    case Bin(op, l, r) => Apply(a, op, Eval(d, a, l), Eval(d, a, r))
  }

  function Apply<N>(a: Arith<N>, op: Token, l: Value<N>, r: Value<N>): Value<N> {
    if l.Fail? then l
    else if r.Fail? then r
    else
      match op
      case Plus => Val(a.add(l.n, r.n))
      case Minus => Val(a.sub(l.n, r.n))
      case Times => Val(a.mul(l.n, r.n))
      case Over => if a.isZero(r.n) then Fail(DivisionByZero) else Val(a.div(l.n, r.n))
      case _ => Fail(BadNumber(op))
  }

  /** 1 sums, 2 products, 3 signed, 4 operands. */
  function Level(e: Expr): nat {
    match e
    case Num(_) => 4
    case Neg(_) => 3
    case Bin(op, _, _) => if op.Plus? || op.Minus? then 1 else 2
  }

  /** What may stand after a minus sign without parentheses. */
  function SignedLevel(d: Dialect): nat {
    if d.Builtin? then 4 else 3
  }

  function Print(d: Dialect, e: Expr, level: nat): seq<Token>
    decreases e, 1
  {
    if Level(e) < level then [Open] + (Bare(d, e) + [Close]) else Bare(d, e)
  }

  function Bare(d: Dialect, e: Expr): seq<Token>
    decreases e, 0
  {
    match e
    case Num(t) => [Word(t)]
    case Neg(x) => [Minus] + Print(d, x, SignedLevel(d))
    case Bin(op, l, r) => Print(d, l, Level(e)) + ([op] + Print(d, r, Level(e) + 1))
  }

  ghost predicate At(toks: seq<Token>, pos: nat, part: seq<Token>) {
    pos + |part| <= |toks| && toks[pos..pos + |part|] == part
  }

  /** No product operator stands at `i`. */
  predicate ProductEnds(toks: seq<Token>, i: nat) {
    i < |toks| ==> !toks[i].Times? && !toks[i].Over?
  }

  function Outcome<N>(v: Value<N>, pos: nat): Parsed<N> {
    match v
    case Val(n) => Ok(n, pos)
    case Fail(err) => Err(err)
  }

  lemma AtSplit(toks: seq<Token>, pos: nat, x: seq<Token>, y: seq<Token>)
    requires At(toks, pos, x + y) || (y == [] && At(toks, pos, x))
    ensures At(toks, pos, x) && At(toks, pos + |x|, y)
    ensures x != [] ==> toks[pos] == x[0]
  {
    assert x + [] == x;
    var both := toks[pos..pos + |x + y|];
    assert toks[pos..pos + |x|] == both[..|x|] == x;
    assert toks[pos + |x|..pos + |x| + |y|] == both[|x|..] == y;
    if x != [] {
      assert toks[pos] == both[0];
    }
  }

  /** Printing never starts with an operator except a minus sign below the operand level. */
  lemma {:induction false} PrintStart<N>(d: Dialect, a: Arith<N>, e: Expr, level: nat)
    requires Good(d, a, e)
    ensures |Print(d, e, level)| > 0
    ensures level == 4 ==> Print(d, e, level)[0] == Open || (e.Num? && Print(d, e, level) == [Word(e.text)])
    decreases e
  {
    if e.Bin? {
      PrintStart(d, a, e.left, Level(e));
    }
  }

  /** Where the parts of a printed binary node stand. */
  lemma BinLayout(d: Dialect, e: Expr, toks: seq<Token>, pos: nat, level: nat) returns (mid: nat, end: nat)
    requires e.Bin? && level == Level(e) && At(toks, pos, Bare(d, e))
    ensures pos <= mid < end <= |toks| && toks[mid] == e.op
    ensures At(toks, pos, Print(d, e.left, level)) && mid == pos + |Print(d, e.left, level)|
    ensures At(toks, mid + 1, Print(d, e.right, level + 1)) && end == mid + 1 + |Print(d, e.right, level + 1)|
    ensures end == pos + |Bare(d, e)|
  {
    var pl, pr := Print(d, e.left, level), Print(d, e.right, level + 1);
    mid, end := pos + |pl|, pos + |Bare(d, e)|;
    AtSplit(toks, pos, pl, [e.op] + pr);
    AtSplit(toks, mid, [e.op], pr);
  }

  /** Where the parts of a parenthesised node stand. */
  lemma ParenLayout(toks: seq<Token>, pos: nat, inner: seq<Token>)
    requires At(toks, pos, [Open] + (inner + [Close]))
    ensures pos < |toks| && toks[pos].Open? && At(toks, pos + 1, inner)
    ensures pos + 1 + |inner| < |toks| && toks[pos + 1 + |inner|].Close?
  {
    AtSplit(toks, pos, [Open], inner + [Close]);
    AtSplit(toks, pos + 1, inner, [Close]);
    AtSplit(toks, pos + 1 + |inner|, [Close], []);
  }

  // ---- what the grammar does with parts already read ---------------------------------------------

  function InSum<N>(d: Dialect, a: Arith<N>, toks: seq<Token>, v: Value<N>, end: nat): Parsed<N>
    requires end <= |toks|
  {
    match v
    case Val(n) => SumTail(d, a, toks, n, end)
    case Fail(err) => Err(err)
  }

  function InProduct<N>(d: Dialect, a: Arith<N>, toks: seq<Token>, v: Value<N>, end: nat): Parsed<N>
    requires end <= |toks|
  {
    match v
    case Val(n) => ProductTail(d, a, toks, n, end)
    case Fail(err) => Err(err)
  }

  lemma ParenReads<N>(d: Dialect, a: Arith<N>, toks: seq<Token>, pos: nat, v: Value<N>, end: nat)
    requires pos < end < |toks| && toks[pos].Open? && toks[end].Close?
    requires Sum(d, a, toks, pos + 1) == InSum(d, a, toks, v, end)
    ensures Atom(d, a, toks, pos) == Outcome(v, end + 1)
  {
  }

  lemma SumContinues<N>(d: Dialect, a: Arith<N>, toks: seq<Token>, pos: nat, l: Value<N>, mid: nat, r: Value<N>,
                        end: nat)
    requires pos <= mid < end <= |toks| && (toks[mid].Plus? || toks[mid].Minus?) && ProductEnds(toks, end)
    requires Sum(d, a, toks, pos) == InSum(d, a, toks, l, mid)
    requires Product(d, a, toks, mid + 1) == InProduct(d, a, toks, r, end)
    ensures Sum(d, a, toks, pos) == InSum(d, a, toks, Apply(a, toks[mid], l, r), end)
  {
  }

  lemma ProductIsSum<N>(d: Dialect, a: Arith<N>, toks: seq<Token>, pos: nat, v: Value<N>, end: nat)
    requires pos <= end <= |toks| && ProductEnds(toks, end)
    requires Product(d, a, toks, pos) == InProduct(d, a, toks, v, end)
    ensures Sum(d, a, toks, pos) == InSum(d, a, toks, v, end)
  {
  }

  lemma FactorIsProduct<N>(d: Dialect, a: Arith<N>, toks: seq<Token>, pos: nat, v: Value<N>, end: nat)
    requires pos <= end <= |toks|
    requires Factor(d, a, toks, pos) == Outcome(v, end)
    ensures Product(d, a, toks, pos) == InProduct(d, a, toks, v, end)
  {
  }

  lemma ProductContinues<N>(d: Dialect, a: Arith<N>, toks: seq<Token>, pos: nat, l: Value<N>, mid: nat, r: Value<N>,
                            end: nat)
    requires pos <= mid < end <= |toks| && (toks[mid].Times? || toks[mid].Over?)
    requires Product(d, a, toks, pos) == InProduct(d, a, toks, l, mid)
    requires Factor(d, a, toks, mid + 1) == Outcome(r, end)
    ensures Product(d, a, toks, pos) == InProduct(d, a, toks, Apply(a, toks[mid], l, r), end)
  {
  }

  // ---- evaluating what was printed ---------------------------------------------------------------

  /** An operand or a parenthesised expression is read exactly. */
  lemma {:induction false} AtomReads<N>(d: Dialect, a: Arith<N>, e: Expr, toks: seq<Token>, pos: nat)
    requires Good(d, a, e) && At(toks, pos, Print(d, e, 4))
    ensures Atom(d, a, toks, pos) == Outcome(Eval(d, a, e), pos + |Print(d, e, 4)|)
    decreases e, if Level(e) < 4 then 10 else 0
  {
    if e.Num? {
      AtSplit(toks, pos, [Word(e.text)], []);
    } else {
      var end := pos + 1 + |Bare(d, e)|;
      ParenLayout(toks, pos, Bare(d, e));
      SumReads(d, a, e, toks, pos + 1);
      ParenReads(d, a, toks, pos, Eval(d, a, e), end);
    }
  }

  lemma {:induction false} NegReads<N>(d: Dialect, a: Arith<N>, e: Expr, toks: seq<Token>, pos: nat)
    requires e.Neg? && Good(d, a, e) && At(toks, pos, Bare(d, e))
    ensures Factor(d, a, toks, pos) == Outcome(Eval(d, a, e), pos + |Bare(d, e)|)
    decreases e, 0
  {
    AtSplit(toks, pos, [Minus], Print(d, e.arg, SignedLevel(d)));
    if d.Builtin? {
      AtomReads(d, a, e.arg, toks, pos + 1);
    } else {
      FactorReads(d, a, e.arg, toks, pos + 1);
    }
  }

  /** A signed operand is read exactly. */
  lemma {:induction false} FactorReads<N>(d: Dialect, a: Arith<N>, e: Expr, toks: seq<Token>, pos: nat)
    requires Good(d, a, e) && At(toks, pos, Print(d, e, 3))
    ensures Factor(d, a, toks, pos) == Outcome(Eval(d, a, e), pos + |Print(d, e, 3)|)
    decreases e, if Level(e) < 3 then 11 else 1
  {
    if e.Neg? {
      NegReads(d, a, e, toks, pos);
    } else {
      assert Print(d, e, 3) == Print(d, e, 4);
      PrintStart(d, a, e, 4);
      AtSplit(toks, pos, Print(d, e, 4), []);
      AtomReads(d, a, e, toks, pos);
      AtomIsFactor(d, a, toks, pos);
    }
  }

  lemma AtomIsFactor<N>(d: Dialect, a: Arith<N>, toks: seq<Token>, pos: nat)
    requires pos < |toks| && (toks[pos].Open? || (toks[pos].Word? && toks[pos].text != ""))
    ensures Factor(d, a, toks, pos) == Atom(d, a, toks, pos)
  {
  }

  lemma {:induction false} ProductPartsRead<N>(d: Dialect, a: Arith<N>, e: Expr, toks: seq<Token>, pos: nat, mid: nat)
    requires e.Bin? && Good(d, a, e.left) && Good(d, a, e.right)
    requires At(toks, pos, Print(d, e.left, 2)) && mid == pos + |Print(d, e.left, 2)|
    requires At(toks, mid + 1, Print(d, e.right, 3))
    ensures Product(d, a, toks, pos) == InProduct(d, a, toks, Eval(d, a, e.left), mid)
    ensures Factor(d, a, toks, mid + 1) == Outcome(Eval(d, a, e.right), mid + 1 + |Print(d, e.right, 3)|)
    decreases e, 2, 0
  {
    ProductReads(d, a, e.left, toks, pos);
    FactorReads(d, a, e.right, toks, mid + 1);
  }

  lemma ProductLayout<N>(d: Dialect, a: Arith<N>, e: Expr, toks: seq<Token>, pos: nat) returns (mid: nat, end: nat)
    requires Good(d, a, e) && Level(e) == 2 && At(toks, pos, Bare(d, e))
    ensures e.Bin? && Good(d, a, e.left) && Good(d, a, e.right)
    ensures pos <= mid < end <= |toks| && toks[mid] == e.op && (e.op.Times? || e.op.Over?)
    ensures At(toks, pos, Print(d, e.left, 2)) && mid == pos + |Print(d, e.left, 2)|
    ensures At(toks, mid + 1, Print(d, e.right, 3)) && end == mid + 1 + |Print(d, e.right, 3)|
    ensures end == pos + |Bare(d, e)|
  {
    mid, end := BinLayout(d, e, toks, pos, 2);
  }

  lemma {:induction false} ProductWhole<N>(d: Dialect, a: Arith<N>, e: Expr, toks: seq<Token>, pos: nat, mid: nat,
                                           end: nat)
    requires e.Bin? && Good(d, a, e.left) && Good(d, a, e.right)
    requires pos <= mid < end <= |toks| && toks[mid] == e.op && (e.op.Times? || e.op.Over?)
    requires At(toks, pos, Print(d, e.left, 2)) && mid == pos + |Print(d, e.left, 2)|
    requires At(toks, mid + 1, Print(d, e.right, 3)) && end == mid + 1 + |Print(d, e.right, 3)|
    ensures Product(d, a, toks, pos) == InProduct(d, a, toks, Eval(d, a, e), end)
    decreases e, 2, 1
  {
    ProductPartsRead(d, a, e, toks, pos, mid);
    ProductContinues(d, a, toks, pos, Eval(d, a, e.left), mid, Eval(d, a, e.right), end);
  }

  lemma {:induction false} ProductBinReads<N>(d: Dialect, a: Arith<N>, e: Expr, toks: seq<Token>, pos: nat)
    requires Good(d, a, e) && Level(e) == 2 && At(toks, pos, Bare(d, e))
    ensures Product(d, a, toks, pos) == InProduct(d, a, toks, Eval(d, a, e), pos + |Bare(d, e)|)
    decreases e, 3
  {
    var mid, end := ProductLayout(d, a, e, toks, pos);
    ProductWhole(d, a, e, toks, pos, mid, end);
  }

  /** After a printed product the parser is in the product loop with the product's value. */
  lemma {:induction false} ProductReads<N>(d: Dialect, a: Arith<N>, e: Expr, toks: seq<Token>, pos: nat)
    requires Good(d, a, e) && At(toks, pos, Print(d, e, 2))
    ensures Product(d, a, toks, pos) == InProduct(d, a, toks, Eval(d, a, e), pos + |Print(d, e, 2)|)
    decreases e, if Level(e) < 2 then 12 else 4
  {
    if Level(e) == 2 {
      ProductBinReads(d, a, e, toks, pos);
    } else {
      assert Print(d, e, 2) == Print(d, e, 3);
      FactorReads(d, a, e, toks, pos);
      FactorIsProduct(d, a, toks, pos, Eval(d, a, e), pos + |Print(d, e, 3)|);
    }
  }

  /** The operands of a printed sum: the left one is itself a sum that no product operator
      follows, the right one a product. */
  lemma {:induction false} SumPartsRead<N>(d: Dialect, a: Arith<N>, e: Expr, toks: seq<Token>, pos: nat, mid: nat)
    requires e.Bin? && Good(d, a, e.left) && Good(d, a, e.right) && ProductEnds(toks, mid)
    requires At(toks, pos, Print(d, e.left, 1)) && mid == pos + |Print(d, e.left, 1)|
    requires At(toks, mid + 1, Print(d, e.right, 2))
    ensures Sum(d, a, toks, pos) == InSum(d, a, toks, Eval(d, a, e.left), mid)
    ensures Product(d, a, toks, mid + 1) == InProduct(d, a, toks, Eval(d, a, e.right), mid + 1 + |Print(d, e.right, 2)|)
    decreases e, 5, 0
  {
    LeftSumReads(d, a, e.left, toks, pos);
    ProductReads(d, a, e.right, toks, mid + 1);
  }

  lemma {:induction false} LeftSumReads<N>(d: Dialect, a: Arith<N>, e: Expr, toks: seq<Token>, pos: nat)
    requires Good(d, a, e) && At(toks, pos, Print(d, e, 1)) && ProductEnds(toks, pos + |Print(d, e, 1)|)
    ensures Sum(d, a, toks, pos) == InSum(d, a, toks, Eval(d, a, e), pos + |Print(d, e, 1)|)
    decreases e, 8
  {
    assert Print(d, e, 1) == Bare(d, e);
    SumReads(d, a, e, toks, pos);
  }

  /** The layout of a printed sum, and that a sum operator stands where its left operand ends. */
  lemma SumLayout<N>(d: Dialect, a: Arith<N>, e: Expr, toks: seq<Token>, pos: nat) returns (mid: nat, end: nat)
    requires Good(d, a, e) && Level(e) == 1 && At(toks, pos, Bare(d, e))
    ensures e.Bin? && Good(d, a, e.left) && Good(d, a, e.right)
    ensures pos <= mid < end <= |toks| && toks[mid] == e.op && (e.op.Plus? || e.op.Minus?)
    ensures At(toks, pos, Print(d, e.left, 1)) && mid == pos + |Print(d, e.left, 1)|
    ensures At(toks, mid + 1, Print(d, e.right, 2)) && end == mid + 1 + |Print(d, e.right, 2)|
    ensures end == pos + |Bare(d, e)|
  {
    mid, end := BinLayout(d, e, toks, pos, 1);
  }

  /** The whole sum from its parts. */
  lemma SumJoins<N>(d: Dialect, a: Arith<N>, e: Expr, toks: seq<Token>, pos: nat, mid: nat, end: nat)
    requires e.Bin? && pos <= mid < end <= |toks| && toks[mid] == e.op && (e.op.Plus? || e.op.Minus?)
    requires ProductEnds(toks, end)
    requires Sum(d, a, toks, pos) == InSum(d, a, toks, Eval(d, a, e.left), mid)
    requires Product(d, a, toks, mid + 1) == InProduct(d, a, toks, Eval(d, a, e.right), end)
    ensures Sum(d, a, toks, pos) == InSum(d, a, toks, Eval(d, a, e), end)
  {
    SumContinues(d, a, toks, pos, Eval(d, a, e.left), mid, Eval(d, a, e.right), end);
  }

  lemma {:induction false} SumWhole<N>(d: Dialect, a: Arith<N>, e: Expr, toks: seq<Token>, pos: nat, mid: nat, end: nat)
    requires e.Bin? && Good(d, a, e.left) && Good(d, a, e.right)
    requires pos <= mid < end <= |toks| && toks[mid] == e.op && (e.op.Plus? || e.op.Minus?) && ProductEnds(toks, end)
    requires At(toks, pos, Print(d, e.left, 1)) && mid == pos + |Print(d, e.left, 1)|
    requires At(toks, mid + 1, Print(d, e.right, 2)) && end == mid + 1 + |Print(d, e.right, 2)|
    ensures Sum(d, a, toks, pos) == InSum(d, a, toks, Eval(d, a, e), end)
    decreases e, 5, 1
  {
    SumPartsRead(d, a, e, toks, pos, mid);
    SumJoins(d, a, e, toks, pos, mid, end);
  }

  lemma {:induction false} SumBinReads<N>(d: Dialect, a: Arith<N>, e: Expr, toks: seq<Token>, pos: nat)
    requires Good(d, a, e) && Level(e) == 1 && At(toks, pos, Bare(d, e))
    requires ProductEnds(toks, pos + |Bare(d, e)|)
    ensures Sum(d, a, toks, pos) == InSum(d, a, toks, Eval(d, a, e), pos + |Bare(d, e)|)
    decreases e, 6
  {
    var mid, end := SumLayout(d, a, e, toks, pos);
    SumWhole(d, a, e, toks, pos, mid, end);
  }

  /** After a printed sum that no product operator follows, the parser is in the sum loop with
      the sum's value. */
  lemma {:induction false} SumReads<N>(d: Dialect, a: Arith<N>, e: Expr, toks: seq<Token>, pos: nat)
    requires Good(d, a, e) && At(toks, pos, Bare(d, e))
    requires ProductEnds(toks, pos + |Bare(d, e)|)
    ensures Sum(d, a, toks, pos) == InSum(d, a, toks, Eval(d, a, e), pos + |Bare(d, e)|)
    decreases e, 7
  {
    if Level(e) == 1 {
      SumBinReads(d, a, e, toks, pos);
    } else {
      ProductReads(d, a, e, toks, pos);
      ProductIsSum(d, a, toks, pos, Eval(d, a, e), pos + |Bare(d, e)|);
    }
  }

  /** Print and evaluate: the tree's value, all tokens consumed; or the tree's error. */
  lemma RoundTrip<N>(d: Dialect, a: Arith<N>, e: Expr)
    requires Good(d, a, e)
    ensures Evaluate(d, a, Print(d, e, 1)) == Outcome(Eval(d, a, e), |Print(d, e, 1)|)
  {
    var toks := Print(d, e, 1);
    assert toks[0..|toks|] == toks;
    SumReads(d, a, e, toks, 0);
  }

  // ---- what the operators mean ---------------------------------------------------------------------

  /** A numeral both dialects read. */
  ghost predicate Numeral<N>(a: Arith<N>, x: string, v: N) {
    x != "" && a.parse(x) == Some(v)
  }

  lemma PrintNum(d: Dialect, x: string, level: nat)
    requires level <= 4
    ensures Print(d, Num(x), level) == [Word(x)]
  {
    assert Level(Num(x)) == 4;
    assert Bare(d, Num(x)) == [Word(x)];
  }

  lemma PrintBin(d: Dialect, op: Token, l: Expr, r: Expr, level: nat)
    requires level <= Level(Bin(op, l, r))
    ensures var k := Level(Bin(op, l, r));
            Print(d, Bin(op, l, r), level) == Print(d, l, k) + ([op] + Print(d, r, k + 1))
  {
    assert Bare(d, Bin(op, l, r)) == Print(d, l, Level(Bin(op, l, r))) + ([op] + Print(d, r, Level(Bin(op, l, r)) + 1));
  }

  lemma Binary<N>(d: Dialect, a: Arith<N>, op: Token, x: string, y: string, v: N, w: N)
    requires IsOperator(op) && Numeral(a, x, v) && Numeral(a, y, w)
    ensures Evaluate(d, a, [Word(x), op, Word(y)]) == Outcome(Apply(a, op, Val(v), Val(w)), 3)
  {
    var e := Bin(op, Num(x), Num(y));
    PrintBin(d, op, Num(x), Num(y), 1);
    PrintNum(d, x, Level(e));
    PrintNum(d, y, Level(e) + 1);
    assert Print(d, e, 1) == [Word(x), op, Word(y)];
    NumeralsMean(d, a, x, v);
    NumeralsMean(d, a, y, w);
    RoundTrip(d, a, e);
  }

  lemma NumeralsMean<N>(d: Dialect, a: Arith<N>, x: string, v: N)
    requires Numeral(a, x, v)
    ensures Good(d, a, Num(x)) && Eval(d, a, Num(x)) == Val(v)
  {
  }

  /** Each operator takes its operands in the order they are written. */
  lemma OperatorsMean<N>(d: Dialect, a: Arith<N>, x: string, y: string, v: N, w: N)
    requires Numeral(a, x, v) && Numeral(a, y, w)
    ensures Evaluate(d, a, [Word(x), Plus, Word(y)]) == Ok(a.add(v, w), 3)
    ensures Evaluate(d, a, [Word(x), Minus, Word(y)]) == Ok(a.sub(v, w), 3)
    ensures Evaluate(d, a, [Word(x), Times, Word(y)]) == Ok(a.mul(v, w), 3)
    ensures Evaluate(d, a, [Word(x), Over, Word(y)]) == if a.isZero(w) then Err(DivisionByZero) else Ok(a.div(v, w), 3)
  {
    Binary(d, a, Plus, x, y, v, w);
    Binary(d, a, Minus, x, y, v, w);
    Binary(d, a, Times, x, y, v, w);
    Binary(d, a, Over, x, y, v, w);
  }

  /** Of two operators on one level the first goes first; so does a product before a sum. */
  lemma LeftTree<N>(d: Dialect, a: Arith<N>, op: Token, next: Token, x: string, y: string, z: string, u: N, v: N, w: N)
    requires IsOperator(op) && IsOperator(next) && Level(Bin(op, Num(x), Num(y))) >= Level(Bin(next, Num(x), Num(y)))
    requires Numeral(a, x, u) && Numeral(a, y, v) && Numeral(a, z, w)
    ensures Evaluate(d, a, [Word(x), op, Word(y), next, Word(z)]) ==
              Outcome(Apply(a, next, Apply(a, op, Val(u), Val(v)), Val(w)), 5)
  {
    var left := Bin(op, Num(x), Num(y));
    var e := Bin(next, left, Num(z));
    PrintBin(d, next, left, Num(z), 1);
    PrintBin(d, op, Num(x), Num(y), Level(e));
    PrintNum(d, x, Level(left));
    PrintNum(d, y, Level(left) + 1);
    PrintNum(d, z, Level(e) + 1);
    assert Print(d, e, 1) == [Word(x), op, Word(y), next, Word(z)];
    NumeralsMean(d, a, x, u);
    NumeralsMean(d, a, y, v);
    NumeralsMean(d, a, z, w);
    assert Eval(d, a, left) == Apply(a, op, Val(u), Val(v));
    RoundTrip(d, a, e);
  }

  /** A product binds tighter than the sum before it. */
  lemma RightTree<N>(d: Dialect, a: Arith<N>, op: Token, next: Token, x: string, y: string, z: string, u: N, v: N, w: N)
    requires (op.Plus? || op.Minus?) && (next.Times? || next.Over?)
    requires Numeral(a, x, u) && Numeral(a, y, v) && Numeral(a, z, w)
    ensures Evaluate(d, a, [Word(x), op, Word(y), next, Word(z)]) ==
              Outcome(Apply(a, op, Val(u), Apply(a, next, Val(v), Val(w))), 5)
  {
    var right := Bin(next, Num(y), Num(z));
    var e := Bin(op, Num(x), right);
    PrintBin(d, op, Num(x), right, 1);
    PrintBin(d, next, Num(y), Num(z), 2);
    PrintNum(d, x, 1);
    PrintNum(d, y, 2);
    PrintNum(d, z, 3);
    assert Print(d, e, 1) == [Word(x), op, Word(y), next, Word(z)];
    NumeralsMean(d, a, x, u);
    NumeralsMean(d, a, y, v);
    NumeralsMean(d, a, z, w);
    assert Eval(d, a, right) == Apply(a, next, Val(v), Val(w));
    RoundTrip(d, a, e);
  }

  /** Operators of one level go from left to right, and a product binds tighter than a sum. */
  lemma LeftToRight<N>(d: Dialect, a: Arith<N>, x: string, y: string, z: string, u: N, v: N, w: N)
    requires Numeral(a, x, u) && Numeral(a, y, v) && Numeral(a, z, w)
    ensures Evaluate(d, a, [Word(x), Minus, Word(y), Minus, Word(z)]) == Ok(a.sub(a.sub(u, v), w), 5)
    ensures !a.isZero(v) && !a.isZero(w) ==>
              Evaluate(d, a, [Word(x), Over, Word(y), Over, Word(z)]) == Ok(a.div(a.div(u, v), w), 5)
    ensures Evaluate(d, a, [Word(x), Plus, Word(y), Times, Word(z)]) == Ok(a.add(u, a.mul(v, w)), 5)
    ensures Evaluate(d, a, [Word(x), Times, Word(y), Plus, Word(z)]) == Ok(a.add(a.mul(u, v), w), 5)
  {
    LeftTree(d, a, Minus, Minus, x, y, z, u, v, w);
    LeftTree(d, a, Over, Over, x, y, z, u, v, w);
    LeftTree(d, a, Times, Plus, x, y, z, u, v, w);
    RightTree(d, a, Plus, Times, x, y, z, u, v, w);
  }

  /** A minus sign negates the operand after it. A plus sign leaves it as it is in the calculator,
      and is an error in the demo. */
  lemma SignsMean<N>(d: Dialect, a: Arith<N>, e: Expr, toks: seq<Token>)
    requires Good(d, a, e) && |toks| >= 1 && toks[1..] == Print(d, e, 4)
    ensures toks[0].Minus? ==> Factor(d, a, toks, 0) == match Eval(d, a, e)
                                                        case Val(n) => Ok(a.neg(n), |toks|)
                                                        case Fail(err) => Err(err)
    ensures toks[0].Plus? && d.Builtin? ==> Factor(d, a, toks, 0) == Outcome(Eval(d, a, e), |toks|)
    ensures toks[0].Plus? && d.Demo? ==> Factor(d, a, toks, 0) == Err(BadNumber(Plus))
  {
    assert toks[1..1 + |Print(d, e, 4)|] == Print(d, e, 4);
    PrintStart(d, a, e, 4);
    AtomReads(d, a, e, toks, 1);
    assert toks[1] == Print(d, e, 4)[0];
    if e.Num? {
      assert toks[1] == Word(e.text);
    }
    AtomIsFactor(d, a, toks, 1);
  }

  /** An operand that no operator follows is all there is to a sum. */
  lemma OneOperand<N>(d: Dialect, a: Arith<N>, toks: seq<Token>, pos: nat)
    requires pos < |toks| && (toks[pos].Open? || (toks[pos].Word? && toks[pos].text != ""))
    requires var r := Atom(d, a, toks, pos); r.Ok? && r.pos < |toks| ==> !IsOperator(toks[r.pos])
    ensures Sum(d, a, toks, pos) == Atom(d, a, toks, pos)
  {
    AtomIsFactor(d, a, toks, pos);
    var r := Atom(d, a, toks, pos);
    if r.Ok? {
      assert ProductTail(d, a, toks, r.value, r.pos) == r;
      assert SumTail(d, a, toks, r.value, r.pos) == r;
    }
    assert Product(d, a, toks, pos) == r;
  }

  /** One word: a numeral is its value; a constant is known to the calculator alone. */
  lemma WordsMean<N>(d: Dialect, a: Arith<N>, x: string)
    requires x != ""
    ensures a.parse(x).Some? ==> Evaluate(d, a, [Word(x)]) == Ok(a.parse(x).value, 1)
    ensures a.parse(x).None? && d.Demo? ==> Evaluate(d, a, [Word(x)]) == Err(BadNumber(Word(x)))
    ensures a.parse(x).None? && d.Builtin? ==>
              Evaluate(d, a, [Word(x)]) == if a.named(x).Some? then Ok(a.named(x).value, 1) else Err(BadNumber(Word(x)))
  {
    OneOperand(d, a, [Word(x)], 0);
  }

  /** What is wrong with an input, case by case: nothing to read, no closing parenthesis, and
      something left over, which only the demo minds. */
  lemma ErrorsMean<N>(d: Dialect, a: Arith<N>, x: string, v: N, t: Token)
    requires Numeral(a, x, v) && (t.Word? || t.Open? || t.Close?)
    ensures Evaluate(d, a, []) == Err(UnexpectedEnd)
    ensures Evaluate(d, a, [Open, Word(x)]) == Err(MissingParen)
    ensures Evaluate(d, a, [Open, Word(x), Close]) == Ok(v, 3)
    ensures Evaluate(d, a, [Word(x), t]) == if d.Demo? then Err(Trailing(t)) else Ok(v, 1)
  {
    assert Factor(d, a, [], 0) == Err(UnexpectedEnd);
    assert Product(d, a, [], 0) == Err(UnexpectedEnd);
    OneOperand(d, a, [Word(x), t], 0);
    var open, whole := [Open, Word(x)], [Open, Word(x), Close];
    OneOperand(d, a, open, 1);
    OneOperand(d, a, whole, 1);
    assert Atom(d, a, open, 0) == Err(MissingParen);
    assert Atom(d, a, whole, 0) == Ok(v, 3);
    OneOperand(d, a, open, 0);
    OneOperand(d, a, whole, 0);
  }
}
