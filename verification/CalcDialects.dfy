/** Exactly where the two evaluators part: from each side, which of the inputs it accepts the
    other accepts too, and that the value is then the same. */
module CalcDialects {
  import opened Calculator

  /** An operand is expected at `i`: the start, or after an operator or an opening parenthesis. */
  predicate Expects(toks: seq<Token>, i: nat)
    requires i <= |toks|
  {
    i == 0 || IsOperator(toks[i - 1]) || toks[i - 1].Open?
  }

  /** A minus sign in operand position followed by another minus. */
  predicate RepeatedMinus(toks: seq<Token>, i: nat) {
    i + 1 < |toks| && Expects(toks, i) && toks[i].Minus? && toks[i + 1].Minus?
  }

  predicate SingleSigns(toks: seq<Token>, lo: nat, hi: nat) {
    forall i: nat | lo <= i < hi && i + 1 < hi :: !RepeatedMinus(toks, i)
  }

  /** What the demo can read at `i`: no plus sign in operand position, no named constant. */
  predicate DemoReads<N>(a: Arith<N>, toks: seq<Token>, i: nat)
    requires i < |toks|
  {
    match toks[i]
    case Plus => !Expects(toks, i)
    case Word(t) => t != "" && a.parse(t).Some?
    case _ => true
  }

  predicate DemoReadable<N>(a: Arith<N>, toks: seq<Token>, lo: nat, hi: nat)
    requires hi <= |toks|
  {
    forall i: nat | lo <= i < hi :: DemoReads(a, toks, i)
  }

  /** `other` repeats `r` when `same` holds, and fails otherwise. */
  ghost predicate Follows<N>(same: bool, r: Parsed<N>, other: Parsed<N>) {
    if same then other == r else other.Err?
  }

  lemma SingleSignsJoin(toks: seq<Token>, lo: nat, mid: nat, hi: nat)
    requires lo <= mid <= hi <= |toks| && !Expects(toks, mid)
    ensures SingleSigns(toks, lo, hi) <==> SingleSigns(toks, lo, mid) && SingleSigns(toks, mid, hi)
  {
    forall i: nat | lo <= i < hi && i + 1 < hi
      ensures RepeatedMinus(toks, i) ==> i + 1 < mid || mid <= i
    {
    }
    if SingleSigns(toks, lo, hi) {
      assert forall i: nat :: mid <= i < hi && i + 1 < hi ==> lo <= i < hi && !RepeatedMinus(toks, i);
    }
  }

  lemma SingleSignsAfter(toks: seq<Token>, lo: nat, hi: nat)
    requires lo < hi <= |toks| && !RepeatedMinus(toks, lo)
    ensures SingleSigns(toks, lo, hi) <==> SingleSigns(toks, lo + 1, hi)
  {
  }

  // ---- what the demo accepts -----------------------------------------------------------------------

  lemma {:induction false} DemoAtom<N>(a: Arith<N>, toks: seq<Token>, pos: nat)
    requires pos <= |toks| && Atom(Demo, a, toks, pos).Ok?
    ensures var r := Atom(Demo, a, toks, pos);
            !Expects(toks, r.pos) && Follows(SingleSigns(toks, pos, r.pos), r, Atom(Builtin, a, toks, pos))
    decreases |toks| - pos, 0
  {
    if toks[pos].Open? {
      DemoSum(a, toks, pos + 1);
      var inner := Sum(Demo, a, toks, pos + 1).pos;
      SingleSignsAfter(toks, pos, inner + 1);
      assert SingleSigns(toks, pos + 1, inner + 1) <==> SingleSigns(toks, pos + 1, inner) by {
        SingleSignsJoin(toks, pos + 1, inner, inner + 1);
      }
    }
  }

  lemma {:induction false} DemoFactor<N>(a: Arith<N>, toks: seq<Token>, pos: nat)
    requires pos <= |toks| && Expects(toks, pos) && Factor(Demo, a, toks, pos).Ok?
    ensures var r := Factor(Demo, a, toks, pos);
            !Expects(toks, r.pos) && Follows(SingleSigns(toks, pos, r.pos), r, Factor(Builtin, a, toks, pos))
    decreases |toks| - pos, 1
  {
    var end := Factor(Demo, a, toks, pos).pos;
    if toks[pos].Minus? {
      DemoFactor(a, toks, pos + 1);
      if toks[pos + 1].Minus? {
        assert RepeatedMinus(toks, pos);
      } else {
        SingleSignsAfter(toks, pos, end);
        DemoAtom(a, toks, pos + 1);
      }
    } else {
      DemoAtom(a, toks, pos);
    }
  }

  lemma {:induction false} DemoProductTail<N>(a: Arith<N>, toks: seq<Token>, left: N, pos: nat)
    requires pos <= |toks| && !Expects(toks, pos) && ProductTail(Demo, a, toks, left, pos).Ok?
    ensures var r := ProductTail(Demo, a, toks, left, pos);
            !Expects(toks, r.pos) && Follows(SingleSigns(toks, pos, r.pos), r, ProductTail(Builtin, a, toks, left, pos))
    decreases |toks| - pos, 3
  {
    if pos < |toks| && (toks[pos].Times? || toks[pos].Over?) {
      DemoFactor(a, toks, pos + 1);
      var f := Factor(Demo, a, toks, pos + 1);
      var next := Combine(a, toks[pos], left, f.value);
      DemoProductTail(a, toks, next, f.pos);
      var end := ProductTail(Demo, a, toks, next, f.pos).pos;
      SingleSignsAfter(toks, pos, end);
      SingleSignsJoin(toks, pos + 1, f.pos, end);
    }
  }

  lemma {:induction false} DemoProduct<N>(a: Arith<N>, toks: seq<Token>, pos: nat)
    requires pos <= |toks| && Expects(toks, pos) && Product(Demo, a, toks, pos).Ok?
    ensures var r := Product(Demo, a, toks, pos);
            !Expects(toks, r.pos) && Follows(SingleSigns(toks, pos, r.pos), r, Product(Builtin, a, toks, pos))
    decreases |toks| - pos, 2
  {
    DemoFactor(a, toks, pos);
    var f := Factor(Demo, a, toks, pos);
    DemoProductTail(a, toks, f.value, f.pos);
    SingleSignsJoin(toks, pos, f.pos, Product(Demo, a, toks, pos).pos);
  }

  lemma {:induction false} DemoSumTail<N>(a: Arith<N>, toks: seq<Token>, left: N, pos: nat)
    requires pos <= |toks| && !Expects(toks, pos) && SumTail(Demo, a, toks, left, pos).Ok?
    ensures var r := SumTail(Demo, a, toks, left, pos);
            !Expects(toks, r.pos) && Follows(SingleSigns(toks, pos, r.pos), r, SumTail(Builtin, a, toks, left, pos))
    decreases |toks| - pos, 3
  {
    if pos < |toks| && (toks[pos].Plus? || toks[pos].Minus?) {
      DemoProduct(a, toks, pos + 1);
      var f := Product(Demo, a, toks, pos + 1);
      var next := Combine(a, toks[pos], left, f.value);
      DemoSumTail(a, toks, next, f.pos);
      var end := SumTail(Demo, a, toks, next, f.pos).pos;
      SingleSignsAfter(toks, pos, end);
      SingleSignsJoin(toks, pos + 1, f.pos, end);
    }
  }

  lemma {:induction false} DemoSum<N>(a: Arith<N>, toks: seq<Token>, pos: nat)
    requires pos <= |toks| && Expects(toks, pos) && Sum(Demo, a, toks, pos).Ok?
    ensures var r := Sum(Demo, a, toks, pos);
            !Expects(toks, r.pos) && Follows(SingleSigns(toks, pos, r.pos), r, Sum(Builtin, a, toks, pos))
    decreases |toks| - pos, 4
  {
    DemoProduct(a, toks, pos);
    var f := Product(Demo, a, toks, pos);
    DemoSumTail(a, toks, f.value, f.pos);
    SingleSignsJoin(toks, pos, f.pos, Sum(Demo, a, toks, pos).pos);
  }

  /** Of the inputs the demo accepts, the calculator accepts exactly those without a repeated
      minus sign, with the same value. */
  lemma CalculatorFollowsDemo<N>(a: Arith<N>, toks: seq<Token>)
    requires Evaluate(Demo, a, toks).Ok?
    ensures Follows(SingleSigns(toks, 0, |toks|), Evaluate(Demo, a, toks), Evaluate(Builtin, a, toks))
  {
    DemoSum(a, toks, 0);
  }

  // ---- what the calculator accepts -----------------------------------------------------------------

  lemma DemoReadableJoin<N>(a: Arith<N>, toks: seq<Token>, lo: nat, mid: nat, hi: nat)
    requires lo <= mid <= hi <= |toks|
    ensures DemoReadable(a, toks, lo, hi) <==> DemoReadable(a, toks, lo, mid) && DemoReadable(a, toks, mid, hi)
  {
  }

  lemma DemoReadableAfter<N>(a: Arith<N>, toks: seq<Token>, lo: nat, hi: nat)
    requires lo < hi <= |toks| && DemoReads(a, toks, lo)
    ensures DemoReadable(a, toks, lo, hi) <==> DemoReadable(a, toks, lo + 1, hi)
  {
  }

  lemma {:induction false} BuiltinAtom<N>(a: Arith<N>, toks: seq<Token>, pos: nat)
    requires pos <= |toks| && Atom(Builtin, a, toks, pos).Ok? && (pos < |toks| ==> toks[pos] != Word(""))
    ensures var r := Atom(Builtin, a, toks, pos);
            !Expects(toks, r.pos) && Follows(DemoReadable(a, toks, pos, r.pos), r, Atom(Demo, a, toks, pos))
    decreases |toks| - pos, 0
  {
    if toks[pos].Open? {
      BuiltinSum(a, toks, pos + 1);
      var inner := Sum(Builtin, a, toks, pos + 1).pos;
      DemoReadableAfter(a, toks, pos, inner + 1);
      DemoReadableJoin(a, toks, pos + 1, inner, inner + 1);
    } else {
      assert DemoReadable(a, toks, pos, pos + 1) <==> DemoReads(a, toks, pos);
    }
  }

  lemma {:induction false} BuiltinFactor<N>(a: Arith<N>, toks: seq<Token>, pos: nat)
    requires pos <= |toks| && Expects(toks, pos) && Factor(Builtin, a, toks, pos).Ok?
    ensures var r := Factor(Builtin, a, toks, pos);
            !Expects(toks, r.pos) && Follows(DemoReadable(a, toks, pos, r.pos), r, Factor(Demo, a, toks, pos))
    decreases |toks| - pos, 1
  {
    var end := Factor(Builtin, a, toks, pos).pos;
    var at := if toks[pos].Minus? || toks[pos].Plus? then pos + 1 else pos;
    if toks[pos].Plus? {
      assert !DemoReads(a, toks, pos);
    } else if toks[pos].Minus? {
      DemoReadableAfter(a, toks, pos, end);
    }
    if toks[at] == Word("") {
      assert !DemoReads(a, toks, at);
    } else {
      BuiltinAtom(a, toks, at);
    }
  }

  lemma {:induction false} BuiltinProductTail<N>(a: Arith<N>, toks: seq<Token>, left: N, pos: nat)
    requires pos <= |toks| && !Expects(toks, pos) && ProductTail(Builtin, a, toks, left, pos).Ok?
    ensures var r := ProductTail(Builtin, a, toks, left, pos);
            !Expects(toks, r.pos) && Follows(DemoReadable(a, toks, pos, r.pos), r,
                ProductTail(Demo, a, toks, left, pos))
    decreases |toks| - pos, 3
  {
    if pos < |toks| && (toks[pos].Times? || toks[pos].Over?) {
      BuiltinFactor(a, toks, pos + 1);
      var f := Factor(Builtin, a, toks, pos + 1);
      var next := Combine(a, toks[pos], left, f.value);
      BuiltinProductTail(a, toks, next, f.pos);
      var end := ProductTail(Builtin, a, toks, next, f.pos).pos;
      DemoReadableAfter(a, toks, pos, end);
      DemoReadableJoin(a, toks, pos + 1, f.pos, end);
    }
  }

  lemma {:induction false} BuiltinProduct<N>(a: Arith<N>, toks: seq<Token>, pos: nat)
    requires pos <= |toks| && Expects(toks, pos) && Product(Builtin, a, toks, pos).Ok?
    ensures var r := Product(Builtin, a, toks, pos);
            !Expects(toks, r.pos) && Follows(DemoReadable(a, toks, pos, r.pos), r, Product(Demo, a, toks, pos))
    decreases |toks| - pos, 2
  {
    BuiltinFactor(a, toks, pos);
    var f := Factor(Builtin, a, toks, pos);
    BuiltinProductTail(a, toks, f.value, f.pos);
    DemoReadableJoin(a, toks, pos, f.pos, Product(Builtin, a, toks, pos).pos);
  }

  lemma {:induction false} BuiltinSumTail<N>(a: Arith<N>, toks: seq<Token>, left: N, pos: nat)
    requires pos <= |toks| && !Expects(toks, pos) && SumTail(Builtin, a, toks, left, pos).Ok?
    ensures var r := SumTail(Builtin, a, toks, left, pos);
            !Expects(toks, r.pos) && Follows(DemoReadable(a, toks, pos, r.pos), r, SumTail(Demo, a, toks, left, pos))
    decreases |toks| - pos, 3
  {
    if pos < |toks| && (toks[pos].Plus? || toks[pos].Minus?) {
      BuiltinProduct(a, toks, pos + 1);
      var f := Product(Builtin, a, toks, pos + 1);
      var next := Combine(a, toks[pos], left, f.value);
      BuiltinSumTail(a, toks, next, f.pos);
      var end := SumTail(Builtin, a, toks, next, f.pos).pos;
      DemoReadableAfter(a, toks, pos, end);
      DemoReadableJoin(a, toks, pos + 1, f.pos, end);
    }
  }

  lemma {:induction false} BuiltinSum<N>(a: Arith<N>, toks: seq<Token>, pos: nat)
    requires pos <= |toks| && Expects(toks, pos) && Sum(Builtin, a, toks, pos).Ok?
    ensures var r := Sum(Builtin, a, toks, pos);
            !Expects(toks, r.pos) && Follows(DemoReadable(a, toks, pos, r.pos), r, Sum(Demo, a, toks, pos))
    decreases |toks| - pos, 4
  {
    BuiltinProduct(a, toks, pos);
    var f := Product(Builtin, a, toks, pos);
    BuiltinSumTail(a, toks, f.value, f.pos);
    DemoReadableJoin(a, toks, pos, f.pos, Sum(Builtin, a, toks, pos).pos);
  }

  /** Of the inputs the calculator accepts, the demo accepts exactly those it reads to the end
      without a plus sign in operand position or a named constant, with the same value. */
  lemma DemoFollowsCalculator<N>(a: Arith<N>, toks: seq<Token>)
    requires Evaluate(Builtin, a, toks).Ok?
    ensures Follows(DemoReadable(a, toks, 0, |toks|) && Evaluate(Builtin, a, toks).pos == |toks|,
                    Evaluate(Builtin, a, toks), Evaluate(Demo, a, toks))
  {
    BuiltinSum(a, toks, 0);
  }

  /** Whenever both evaluators accept an input they return the same value. */
  lemma EvaluatorsAgree<N>(a: Arith<N>, toks: seq<Token>)
    requires Evaluate(Builtin, a, toks).Ok? && Evaluate(Demo, a, toks).Ok?
    ensures Evaluate(Builtin, a, toks) == Evaluate(Demo, a, toks)
  {
    CalculatorFollowsDemo(a, toks);
  }
}
