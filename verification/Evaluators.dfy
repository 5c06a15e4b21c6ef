/** The two evaluators as they are written: the calculator threads a position through its
    loops, the demo advances a parser object. Each computes its dialect of the grammar. */
module Evaluators {
  import opened Basics
  import opened Calculator
  import opened CalcText

  // ---- the calculator tool ---------------------------------------------------------------------------

  method Tokenize(expr: string) returns (tokens: seq<Token>)
    ensures tokens == Flush(Lex(Builtin, expr))
  {
    tokens := [];
    var current := "";
    for i := 0 to |expr|
      invariant Lexing(tokens, current) == Lex(Builtin, expr[..i])
    {
      LexPush(Builtin, expr[..i], expr[i]);
      assert expr[..i + 1] == expr[..i] + [expr[i]];
      var ch := expr[i];
      if ch == ' ' || ch == '\t' {
        continue;
      }
      var symbol := SymbolOf(ch);
      if symbol.Some? {
        if |current| > 0 {
          tokens := tokens + [Word(current)];
          current := "";
        }
        tokens := tokens + [symbol.value];
      } else {
        current := current + [ch];
      }
    }
    assert expr[..|expr|] == expr;
    if |current| > 0 {
      tokens := tokens + [Word(current)];
    }
  }

  method ParseExpr<N>(a: Arith<N>, tokens: seq<Token>, pos0: nat) returns (r: Parsed<N>)
    requires pos0 <= |tokens|
    ensures r == Sum(Builtin, a, tokens, pos0)
    decreases |tokens| - pos0, 4
  {
    r := ParseMulDiv(a, tokens, pos0);
    if r.Err? {
      return;
    }
    var left, pos := r.value, r.pos;
    while pos < |tokens|
      invariant pos0 < pos <= |tokens|
      invariant SumTail(Builtin, a, tokens, left, pos) == Sum(Builtin, a, tokens, pos0)
      decreases |tokens| - pos
    {
      var op := tokens[pos];
      if !op.Plus? && !op.Minus? {
        break;
      }
      var right := ParseMulDiv(a, tokens, pos + 1);
      if right.Err? {
        return Err(right.error);
      }
      if op.Plus? {
        left := a.add(left, right.value);
      } else {
        left := a.sub(left, right.value);
      }
      pos := right.pos;
    }
    r := Ok(left, pos);
  }

  method ParseMulDiv<N>(a: Arith<N>, tokens: seq<Token>, pos0: nat) returns (r: Parsed<N>)
    requires pos0 <= |tokens|
    ensures r == Product(Builtin, a, tokens, pos0)
    decreases |tokens| - pos0, 3
  {
    r := ParseUnary(a, tokens, pos0);
    if r.Err? {
      return;
    }
    var left, pos := r.value, r.pos;
    while pos < |tokens|
      invariant pos0 < pos <= |tokens|
      invariant ProductTail(Builtin, a, tokens, left, pos) == Product(Builtin, a, tokens, pos0)
      decreases |tokens| - pos
    {
      var op := tokens[pos];
      if !op.Times? && !op.Over? {
        break;
      }
      var right := ParseUnary(a, tokens, pos + 1);
      if right.Err? {
        return Err(right.error);
      }
      if op.Times? {
        left := a.mul(left, right.value);
      } else {
        if a.isZero(right.value) {
          return Err(DivisionByZero);
        }
        left := a.div(left, right.value);
      }
      pos := right.pos;
    }
    r := Ok(left, pos);
  }

  method ParseUnary<N>(a: Arith<N>, tokens: seq<Token>, pos: nat) returns (r: Parsed<N>)
    requires pos <= |tokens|
    ensures r == Factor(Builtin, a, tokens, pos)
    decreases |tokens| - pos, 2
  {
    if pos >= |tokens| {
      return Err(UnexpectedEnd);
    }
    if tokens[pos].Minus? {
      r := ParsePrimary(a, tokens, pos + 1);
      return Negated(a, r);
    }
    if tokens[pos].Plus? {
      r := ParsePrimary(a, tokens, pos + 1);
      return;
    }
    r := ParsePrimary(a, tokens, pos);
  }

  method ParsePrimary<N>(a: Arith<N>, tokens: seq<Token>, pos: nat) returns (r: Parsed<N>)
    requires pos <= |tokens|
    ensures r == Atom(Builtin, a, tokens, pos)
    decreases |tokens| - pos, 1
  {
    if pos >= |tokens| {
      return Err(UnexpectedEnd);
    }
    var token := tokens[pos];
    if token.Open? {
      var inner := ParseExpr(a, tokens, pos + 1);
      if inner.Err? {
        return Err(inner.error);
      }
      if inner.pos >= |tokens| || !tokens[inner.pos].Close? {
        return Err(MissingParen);
      }
      return Ok(inner.value, inner.pos + 1);
    }
    var val := if token.Word? then a.parse(token.text) else None;
    if val.None? {
      var constant := if token.Word? then a.named(token.text) else None;
      if constant.Some? {
        return Ok(constant.value, pos + 1);
      }
      return Err(BadNumber(token));
    }
    return Ok(val.value, pos + 1);
  }

  method EvalExpr<N>(a: Arith<N>, expr: string) returns (r: Answer<N>)
    ensures r == EvalText(a, expr)
  {
    var tokens := Tokenize(expr);
    var p := ParseExpr(a, tokens, 0);
    r := Answered(p);
  }

  // ---- the tool-calling demo ---------------------------------------------------------------------------

  method RemoveSpaces(expr: string) returns (s: string)
    ensures s == Strip(expr)
  {
    s := "";
    for i := 0 to |expr|
      invariant s == Strip(expr[..i])
    {
      assert expr[..i + 1][..i] == expr[..i];
      if expr[i] != ' ' {
        s := s + [expr[i]];
      }
    }
    assert expr[..|expr|] == expr;
  }

  method DemoTokenize(expr: string) returns (tokens: seq<Token>)
    ensures tokens == Flush(Lex(Demo, expr))
  {
    tokens := [];
    var current := "";
    for i := 0 to |expr|
      invariant Lexing(tokens, current) == Lex(Demo, expr[..i])
    {
      LexPush(Demo, expr[..i], expr[i]);
      assert expr[..i + 1] == expr[..i] + [expr[i]];
      var symbol := SymbolOf(expr[i]);
      if symbol.Some? {
        if |current| > 0 {
          tokens := tokens + [Word(current)];
          current := "";
        }
        tokens := tokens + [symbol.value];
      } else {
        current := current + [expr[i]];
      }
    }
    assert expr[..|expr|] == expr;
    if |current| > 0 {
      tokens := tokens + [Word(current)];
    }
  }

  datatype Result<N> = Done(value: N) | Stopped(error: Error)

  class TokenParser<N> {
    const tokens: seq<Token>
    const a: Arith<N>
    var pos: nat

    constructor (a: Arith<N>, tokens: seq<Token>)
      ensures this.a == a && this.tokens == tokens && pos == 0
    {
      this.a, this.tokens, pos := a, tokens, 0;
    }

    /** The current token, or the empty word past the end. */
    function Peek(): Token
      reads this
    {
      if pos < |tokens| then tokens[pos] else Word("")
    }

    method Consume() returns (tok: Token)
      modifies this
      ensures tok == old(Peek()) && pos == old(pos) + 1
    {
      tok := Peek();
      pos := pos + 1;
    }

    /** What a parse method did: the grammar's value and position, or its error. */
    ghost predicate Parsed(r: Result<N>, expected: Parsed<N>)
      reads this
    {
      match expected
      case Ok(v, p) => r == Done(v) && pos == p
      case Err(e) => r == Stopped(e)
    }

    method ParseAddSub() returns (r: Result<N>)
      requires pos <= |tokens|
      modifies this
      ensures Parsed(r, Sum(Demo, a, tokens, old(pos)))
      decreases |tokens| - pos, 4
    {
      r := ParseMulDiv();
      if r.Stopped? {
        return;
      }
      var left := r.value;
      while true
        invariant old(pos) < pos <= |tokens|
        invariant SumTail(Demo, a, tokens, left, pos) == Sum(Demo, a, tokens, old(pos))
        decreases |tokens| - pos
      {
        var op := Peek();
        if !op.Plus? && !op.Minus? {
          break;
        }
        var _ := Consume();
        var right := ParseMulDiv();
        if right.Stopped? {
          return Stopped(right.error);
        }
        if op.Plus? {
          left := a.add(left, right.value);
        } else {
          left := a.sub(left, right.value);
        }
      }
      r := Done(left);
    }

    method ParseMulDiv() returns (r: Result<N>)
      requires pos <= |tokens|
      modifies this
      ensures Parsed(r, Product(Demo, a, tokens, old(pos)))
      decreases |tokens| - pos, 3
    {
      r := ParsePrimary();
      if r.Stopped? {
        return;
      }
      var left := r.value;
      while true
        invariant old(pos) < pos <= |tokens|
        invariant ProductTail(Demo, a, tokens, left, pos) == Product(Demo, a, tokens, old(pos))
        decreases |tokens| - pos
      {
        var op := Peek();
        if !op.Times? && !op.Over? {
          break;
        }
        var _ := Consume();
        var right := ParsePrimary();
        if right.Stopped? {
          return Stopped(right.error);
        }
        if op.Times? {
          left := a.mul(left, right.value);
        } else {
          if a.isZero(right.value) {
            return Stopped(DivisionByZero);
          }
          left := a.div(left, right.value);
        }
      }
      r := Done(left);
    }

    method ParsePrimary() returns (r: Result<N>)
      requires pos <= |tokens|
      modifies this
      ensures Parsed(r, Factor(Demo, a, tokens, old(pos)))
      decreases |tokens| - pos, 2
    {
      var tok := Peek();
      if tok == Word("") {
        return Stopped(UnexpectedEnd);
      }
      if tok.Open? {
        var _ := Consume();
        r := ParseAddSub();
        if r.Stopped? {
          return;
        }
        if !Peek().Close? {
          return Stopped(MissingParen);
        }
        var _ := Consume();
        return;
      }
      if tok.Minus? {
        var _ := Consume();
        r := ParsePrimary();
        if r.Stopped? {
          return;
        }
        return Done(a.neg(r.value));
      }
      var _ := Consume();
      var val := if tok.Word? then a.parse(tok.text) else None;
      if val.None? {
        return Stopped(BadNumber(tok));
      }
      return Done(val.value);
    }
  }

  method DemoParse<N>(a: Arith<N>, tokens: seq<Token>) returns (r: Answer<N>)
    ensures r == Answered(Evaluate(Demo, a, tokens))
  {
    var p := new TokenParser<N>(a, tokens);
    var result := p.ParseAddSub();
    if result.Stopped? {
      return Failed(result.error);
    }
    if p.pos < |p.tokens| {
      return Failed(Trailing(p.tokens[p.pos]));
    }
    return Value(result.value);
  }

  method SimpleEval<N>(a: Arith<N>, expr: string) returns (r: Answer<N>)
    ensures r == SimpleText(a, expr)
  {
    var s := RemoveSpaces(expr);
    if s == "" {
      return EmptyExpression;
    }
    for i := 0 to |s|
      invariant FirstBad(s, 0) == FirstBad(s, i)
    {
      if !Allowed(s[i]) {
        return InvalidCharacter(s[i]);
      }
    }
    var tokens := DemoTokenize(s);
    r := DemoParse(a, tokens);
  }
}
