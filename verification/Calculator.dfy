/** The grammar of both arithmetic evaluators, as functions on token lists. Numbers and their
    operations are arbitrary, so nothing here depends on floating point. */
module Calculator {
  import opened Basics

  /** The operations the evaluators call, and what ParseFloat and the named constants yield. */
  datatype Arith<!N> = Arith(
    add: (N, N) -> N, sub: (N, N) -> N, mul: (N, N) -> N, div: (N, N) -> N, neg: N -> N,
    isZero: N -> bool,
    parse: string -> Option<N>,
    named: string -> Option<N>)

  /** The calculator tool and the tool-calling demo. They share the two upper levels of the
      grammar and differ in how a factor may start and in the constants "pi" and "e". */
  datatype Dialect = Builtin | Demo

  /** Both tokenizers emit each of the six symbols as a token of its own; anything else
      between them is a word. ParseFloat accepts none of the symbols. */
  datatype Token = Plus | Minus | Times | Over | Open | Close | Word(text: string)

  datatype Error = UnexpectedEnd | MissingParen | BadNumber(token: Token) | DivisionByZero | Trailing(token: Token)

  datatype Parsed<N> = Ok(value: N, pos: nat) | Err(error: Error)

  predicate IsOperator(t: Token) {
    t.Plus? || t.Minus? || t.Times? || t.Over?
  }

  /** The value of an operand token. */
  function AtomValue<N>(d: Dialect, a: Arith<N>, t: Token): Option<N> {
    if !t.Word? then None
    else if a.parse(t.text).Some? || d.Demo? then a.parse(t.text)
    else a.named(t.text)
  }

  function Combine<N>(a: Arith<N>, op: Token, l: N, r: N): N {
    match op
    case Plus => a.add(l, r)
    case Minus => a.sub(l, r)
    case Times => a.mul(l, r)
    case _ => a.div(l, r)
  }

  // ---- the grammar -------------------------------------------------------------------------------

  function Sum<N>(d: Dialect, a: Arith<N>, toks: seq<Token>, pos: nat): (r: Parsed<N>)
    requires pos <= |toks|
    ensures r.Ok? ==> pos < r.pos <= |toks|
    decreases |toks| - pos, 4
  {
    match Product(d, a, toks, pos)
    case Err(e) => Err(e)
    case Ok(left, p) => SumTail(d, a, toks, left, p)
  }

  function SumTail<N>(d: Dialect, a: Arith<N>, toks: seq<Token>, left: N, pos: nat): (r: Parsed<N>)
    requires pos <= |toks|
    ensures r.Ok? ==> pos <= r.pos <= |toks|
    decreases |toks| - pos, 3
  {
    if pos < |toks| && (toks[pos].Plus? || toks[pos].Minus?) then
      match Product(d, a, toks, pos + 1)
      case Err(e) => Err(e)
      case Ok(right, p) => SumTail(d, a, toks, Combine(a, toks[pos], left, right), p)
    else Ok(left, pos)
  }

  function Product<N>(d: Dialect, a: Arith<N>, toks: seq<Token>, pos: nat): (r: Parsed<N>)
    requires pos <= |toks|
    ensures r.Ok? ==> pos < r.pos <= |toks|
    decreases |toks| - pos, 2
  {
    match Factor(d, a, toks, pos)
    case Err(e) => Err(e)
    case Ok(left, p) => ProductTail(d, a, toks, left, p)
  }

  function ProductTail<N>(d: Dialect, a: Arith<N>, toks: seq<Token>, left: N, pos: nat): (r: Parsed<N>)
    requires pos <= |toks|
    ensures r.Ok? ==> pos <= r.pos <= |toks|
    decreases |toks| - pos, 3
  {
    if pos < |toks| && (toks[pos].Times? || toks[pos].Over?) then
      match Factor(d, a, toks, pos + 1)
      case Err(e) => Err(e)
      case Ok(right, p) =>
        if toks[pos].Over? && a.isZero(right) then Err(DivisionByZero)
        else ProductTail(d, a, toks, Combine(a, toks[pos], left, right), p)
    else Ok(left, pos)
  }

  function Negated<N>(a: Arith<N>, r: Parsed<N>): Parsed<N> {
    match r
    case Ok(v, p) => Ok(a.neg(v), p)
    case Err(e) => Err(e)
  }

  /** A signed operand. The calculator allows one sign, plus or minus; the demo any number of
      minuses and no plus. */
  function Factor<N>(d: Dialect, a: Arith<N>, toks: seq<Token>, pos: nat): (r: Parsed<N>)
    requires pos <= |toks|
    ensures r.Ok? ==> pos < r.pos <= |toks|
    decreases |toks| - pos, 1
  {
    if pos == |toks| || (d.Demo? && toks[pos] == Word("")) then Err(UnexpectedEnd)
    else if toks[pos].Minus? then
      Negated(a, if d.Builtin? then Atom(d, a, toks, pos + 1) else Factor(d, a, toks, pos + 1))
    else if d.Builtin? && toks[pos].Plus? then Atom(d, a, toks, pos + 1)
    else Atom(d, a, toks, pos)
  }

  function Atom<N>(d: Dialect, a: Arith<N>, toks: seq<Token>, pos: nat): (r: Parsed<N>)
    requires pos <= |toks|
    ensures r.Ok? ==> pos < r.pos <= |toks|
    decreases |toks| - pos, 0
  {
    if pos == |toks| then Err(UnexpectedEnd)
    else if toks[pos].Open? then
      match Sum(d, a, toks, pos + 1)
      case Err(e) => Err(e)
      case Ok(v, p) => if p == |toks| || !toks[p].Close? then Err(MissingParen) else Ok(v, p + 1)
    else
      match AtomValue(d, a, toks[pos])
      case None => Err(BadNumber(toks[pos]))
      case Some(v) => Ok(v, pos + 1)
  }

  /** The whole input: the calculator ignores what follows the first sum, the demo rejects it. */
  function Evaluate<N>(d: Dialect, a: Arith<N>, toks: seq<Token>): Parsed<N> {
    match Sum(d, a, toks, 0)
    case Err(e) => Err(e)
    case Ok(v, p) => if d.Demo? && p < |toks| then Err(Trailing(toks[p])) else Ok(v, p)
  }
}
