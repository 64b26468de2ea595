/** internal/devlang/parser.go: the expression parser itself, two tokens of lookahead moved
    forward by its methods. */
module Parser {
  import opened Expr
  import opened Grammar

  class Parser {
    const toks: seq<Token>
    /** How many tokens the lexer has delivered; it repeats EOF at the end. */
    var lexed: nat
    var cur: Token
    var peek: Token
    var errs: seq<ParseError>

    constructor (toks: seq<Token>)
      ensures Valid() && this.toks == toks && lexed == 2 && errs == []
    {
      this.toks, lexed, errs := toks, 2, [];
      cur, peek := At(toks, 0), At(toks, 1);
    }

    ghost predicate Valid()
      reads this
    {
      lexed >= 2 && cur == At(toks, lexed - 2) && peek == At(toks, lexed - 1)
    }

    /** The index of the current token. */
    ghost function Here(): nat
      requires Valid()
      reads this
    {
      lexed - 2
    }

    /** The parser has done what p says: it returns p's tree, has consumed p's tokens (the last
        one is current) and has added p's errors. */
    twostate predicate Did(e: Expr, p: Parsed)
      reads this
    {
      Valid() && e == p.e && lexed == p.next + 1 && errs == old(errs) + p.errs
    }

    method NextToken()
      requires Valid()
      modifies this`lexed, this`cur, this`peek
      ensures Valid() && lexed == old(lexed) + 1
    {
      cur := peek;
      peek := At(toks, lexed);
      lexed := lexed + 1;
    }

    /** On to the operator, and past it. */
    method StepOver()
      requires Valid()
      modifies this`lexed, this`cur, this`peek
      ensures Valid() && lexed == old(lexed) + 2
    {
      NextToken();
      NextToken();
    }

    method ParseExpr() returns (e: Expr)
      requires Valid()
      modifies this
      ensures Did(e, Ternary(toks, old(Here())))
      decreases Remaining(toks, Here()), 11
    {
      e := ParseTernary();
    }

    method ParseTernary() returns (e: Expr)
      requires Valid()
      modifies this
      ensures Did(e, Ternary(toks, old(Here())))
      decreases Remaining(toks, Here()), 10
    {
      e := ParseLogicalOr();
      if peek.QUESTION? {
        StepOver();
        var yes := ParseExpr();
        if !peek.COLON? {
          errs := errs + [MissingColon(lexed - 1)];
          return;
        }
        StepOver();
        var no := ParseExpr();
        return Cond(e, yes, no);
      }
    }

    method ParseLogicalOr() returns (left: Expr)
      requires Valid()
      modifies this
      ensures Did(left, LogicalOr(toks, old(Here())))
      decreases Remaining(toks, Here()), 9
    {
      ghost var start := Here();
      left := ParseLogicalAnd();
      ghost var sofar := LogicalAnd(toks, start);
      while peek.PIPEPIPE?
        invariant Did(left, sofar) && sofar.next > start && OrRest(toks, sofar) == LogicalOr(toks, start)
        decreases Remaining(toks, lexed - 1)
      {
        StepOver();
        var right := ParseLogicalAnd();
        left, sofar := Bin(left, Or, right), Join(sofar, Or, LogicalAnd(toks, sofar.next + 1));
      }
    }

    method ParseLogicalAnd() returns (left: Expr)
      requires Valid()
      modifies this
      ensures Did(left, LogicalAnd(toks, old(Here())))
      decreases Remaining(toks, Here()), 7
    {
      ghost var start := Here();
      left := ParseEquality();
      ghost var sofar := Equality(toks, start);
      while peek.AMPAMP?
        invariant Did(left, sofar) && sofar.next > start && AndRest(toks, sofar) == LogicalAnd(toks, start)
        decreases Remaining(toks, lexed - 1)
      {
        StepOver();
        var right := ParseEquality();
        left, sofar := Bin(left, And, right), Join(sofar, And, Equality(toks, sofar.next + 1));
      }
    }

    method ParseEquality() returns (left: Expr)
      requires Valid()
      modifies this
      ensures Did(left, Equality(toks, old(Here())))
      decreases Remaining(toks, Here()), 5
    {
      left := ParseConcat();
      if peek.EQEQ? || peek.BANGEQ? {
        var op := if peek.BANGEQ? then Neq else Eq;
        StepOver();
        var right := ParseConcat();
        return Bin(left, op, right);
      }
    }

    method ParseConcat() returns (left: Expr)
      requires Valid()
      modifies this
      ensures Did(left, Concat(toks, old(Here())))
      decreases Remaining(toks, Here()), 4
    {
      ghost var start := Here();
      left := ParsePrimary();
      ghost var sofar := Primary(toks, start);
      while peek.PLUS?
        invariant Did(left, sofar) && sofar.next > start && ConcatRest(toks, sofar) == Concat(toks, start)
        decreases Remaining(toks, lexed - 1)
      {
        StepOver();
        var right := ParsePrimary();
        left, sofar := Bin(left, Add, right), Join(sofar, Add, Primary(toks, sofar.next + 1));
      }
    }

    method ParsePrimary() returns (e: Expr)
      requires Valid()
      modifies this
      ensures Did(e, Primary(toks, old(Here())))
      decreases Remaining(toks, Here()), 2
    {
      match cur
      case STRING(s) => e := Str(s);
      case BOOL(lexeme) => e := Bool(lexeme == "true");
      case NUMBER(n) => e := Num(n);
      case IDENT(x) =>
        if x == "secret" && peek.LPAREN? {
          e := ParseSecretRef();
        } else if peek.LPAREN? {
          e := ParseFunctionCall(x);
        } else {
          e := Ident(x);
        }
      case LBRACKET => e := ParseListLiteral();
      case _ =>
        errs := errs + [UnexpectedToken(lexed - 2)];
        e := Str("");
    }

    method ParseSecretRef() returns (e: Expr)
      requires Valid()
      modifies this
      ensures Did(e, SecretRef(toks, old(Here())))
    {
      StepOver();
      if !cur.STRING? {
        errs := errs + [MissingKey(lexed - 2)];
        return Secret("");
      }
      var key := cur.s;
      NextToken();
      if !cur.RPAREN? { errs := errs + [MissingParen(lexed - 2)]; }
      e := Secret(key);
    }

    method ParseFunctionCall(name: string) returns (e: Expr)
      requires Valid() && peek.LPAREN?
      modifies this
      ensures Did(e, FunctionCall(toks, name, old(Here())))
      decreases Remaining(toks, Here()), 1
    {
      StepOver();
      var args := ParseElements(RPAREN);
      if !cur.RPAREN? { errs := errs + [MissingParen(lexed - 2)]; }
      e := Call(name, args);
    }

    method ParseListLiteral() returns (e: Expr)
      requires Valid() && cur.LBRACKET?
      modifies this
      ensures Did(e, ListLiteral(toks, old(Here())))
      decreases Remaining(toks, Here()), 1
    {
      var start := lexed - 2;
      NextToken();
      var elems := ParseElements(RBRACKET);
      if !cur.RBRACKET? { errs := errs + [UnterminatedList(start)]; }
      e := List(elems);
    }

    /** The loop that list literals and calls share. */
    method ParseElements(close: Token) returns (elems: seq<Expr>)
      requires Valid()
      modifies this
      ensures var l := Elements(toks, Listed([], old(Here()), []), close);
              Valid() && elems == l.es && Here() == l.at && errs == old(errs) + l.errs
      decreases Remaining(toks, Here()), 12
    {
      ghost var start := Here();
      elems := [];
      ghost var sofar := Listed([], start, []);
      while cur != close && !cur.EOF?
        invariant Valid() && elems == sofar.es && Here() == sofar.at && errs == old(errs) + sofar.errs
        invariant sofar.at >= start && Elements(toks, sofar, close) == Elements(toks, Listed([], start, []), close)
        decreases Remaining(toks, lexed - 2)
      {
        ghost var p := Ternary(toks, sofar.at);
        var elem := ParseExpr();
        elems := elems + [elem];
        sofar := Listed(sofar.es + [p.e], if At(toks, p.next).COMMA? then p.next + 1 else p.next, sofar.errs + p.errs);
        NextToken();
        if cur.COMMA? { NextToken(); }
      }
    }
  }
}
