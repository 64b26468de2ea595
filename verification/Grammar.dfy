/** internal/devlang/parser.go: the expression grammar, from a token sequence. Each parsing
    function starts with the parser's current token at `i` and says where it leaves it. */
module Grammar {
  import opened Expr

  datatype Token =
    | STRING(s: string) | BOOL(lexeme: string) | NUMBER(n: int) | IDENT(name: string)
    | LBRACKET | RBRACKET | LPAREN | RPAREN | COMMA | PLUS | EQEQ | BANGEQ | AMPAMP | PIPEPIPE
    | QUESTION | COLON | EOF | OTHER

  /** Each error carries the index of the token it points at. */
  datatype ParseError =
    | UnexpectedToken(at: nat) | MissingColon(at: nat) | MissingKey(at: nat) | MissingParen(at: nat)
        | UnterminatedList(at: nat)

  /** A tree, the index of the first token not consumed, and the errors reported meanwhile. */
  datatype Parsed = Parsed(e: Expr, next: nat, errs: seq<ParseError>)

  /** Elements collected so far; `at` is the token where the next one, or the closing token, is expected. */
  datatype Listed = Listed(es: seq<Expr>, at: nat, errs: seq<ParseError>)

  /** The lexer repeats EOF for ever. */
  function At(toks: seq<Token>, i: nat): Token {
    if i < |toks| then toks[i] else EOF
  }

  function Remaining(toks: seq<Token>, i: nat): nat {
    if i < |toks| then |toks| - i else 0
  }

  function Join(l: Parsed, op: Op, r: Parsed): Parsed {
    Parsed(Bin(l.e, op, r.e), r.next, l.errs + r.errs)
  }

  function Ternary(toks: seq<Token>, i: nat): (p: Parsed)
    ensures p.next > i
    decreases Remaining(toks, i), 10
  {
    var c := LogicalOr(toks, i);
    if !At(toks, c.next).QUESTION? then c
    else
      var y := Ternary(toks, c.next + 1);
      if !At(toks, y.next).COLON? then Parsed(c.e, y.next, c.errs + y.errs + [MissingColon(y.next)])
      else
        var n := Ternary(toks, y.next + 1);
        Parsed(Cond(c.e, y.e, n.e), n.next, c.errs + y.errs + n.errs)
  }

  function LogicalOr(toks: seq<Token>, i: nat): (p: Parsed)
    ensures p.next > i
    decreases Remaining(toks, i), 9
  {
    OrRest(toks, LogicalAnd(toks, i))
  }

  function OrRest(toks: seq<Token>, left: Parsed): (p: Parsed)
    ensures p.next >= left.next
    decreases Remaining(toks, left.next), 8
  {
    if At(toks, left.next).PIPEPIPE? then OrRest(toks, Join(left, Or, LogicalAnd(toks, left.next + 1))) else left
  }

  function LogicalAnd(toks: seq<Token>, i: nat): (p: Parsed)
    ensures p.next > i
    decreases Remaining(toks, i), 7
  {
    AndRest(toks, Equality(toks, i))
  }

  function AndRest(toks: seq<Token>, left: Parsed): (p: Parsed)
    ensures p.next >= left.next
    decreases Remaining(toks, left.next), 6
  {
    if At(toks, left.next).AMPAMP? then AndRest(toks, Join(left, And, Equality(toks, left.next + 1))) else left
  }

  function Equality(toks: seq<Token>, i: nat): (p: Parsed)
    ensures p.next > i
    decreases Remaining(toks, i), 5
  {
    var l := Concat(toks, i);
    var op := At(toks, l.next);
    if op.EQEQ? || op.BANGEQ? then Join(l, if op.BANGEQ? then Neq else Eq, Concat(toks, l.next + 1)) else l
  }

  function Concat(toks: seq<Token>, i: nat): (p: Parsed)
    ensures p.next > i
    decreases Remaining(toks, i), 4
  {
    ConcatRest(toks, Primary(toks, i))
  }

  function ConcatRest(toks: seq<Token>, left: Parsed): (p: Parsed)
    ensures p.next >= left.next
    decreases Remaining(toks, left.next), 3
  {
    if At(toks, left.next).PLUS? then ConcatRest(toks, Join(left, Add, Primary(toks, left.next + 1))) else left
  }

  function Primary(toks: seq<Token>, i: nat): (p: Parsed)
    ensures p.next > i
    decreases Remaining(toks, i), 2
  {
    match At(toks, i)
    case STRING(s) => Parsed(Str(s), i + 1, [])
    case BOOL(lexeme) => Parsed(Bool(lexeme == "true"), i + 1, [])
    case NUMBER(n) => Parsed(Num(n), i + 1, [])
    case IDENT(x) =>
      if !At(toks, i + 1).LPAREN? then Parsed(Ident(x), i + 1, [])
      else if x == "secret" then SecretRef(toks, i)
      else FunctionCall(toks, x, i)
    case LBRACKET => ListLiteral(toks, i)
    case _ => Parsed(Str(""), i + 1, [UnexpectedToken(i)])
  }

  function SecretRef(toks: seq<Token>, i: nat): (p: Parsed)
    ensures p.next > i
  {
    match At(toks, i + 2)
    case STRING(key) => Parsed(Secret(key), i + 4, if At(toks, i + 3).RPAREN? then [] else [MissingParen(i + 3)])
    case _ => Parsed(Secret(""), i + 3, [MissingKey(i + 2)])
  }

  function FunctionCall(toks: seq<Token>, name: string, i: nat): (p: Parsed)
    requires i + 1 < |toks|
    ensures p.next > i
    decreases Remaining(toks, i), 1
  {
    var l := Elements(toks, Listed([], i + 2, []), RPAREN);
    Parsed(Call(name, l.es), l.at + 1, l.errs + if At(toks, l.at).RPAREN? then [] else [MissingParen(l.at)])
  }

  function ListLiteral(toks: seq<Token>, i: nat): (p: Parsed)
    requires i < |toks|
    ensures p.next > i
    decreases Remaining(toks, i), 1
  {
    var l := Elements(toks, Listed([], i + 1, []), RBRACKET);
    Parsed(List(l.es), l.at + 1, l.errs + if At(toks, l.at).RBRACKET? then [] else [UnterminatedList(i)])
  }

  /** The loop of both: the comma between elements is optional, and one may follow the last. */
  function Elements(toks: seq<Token>, sofar: Listed, close: Token): (l: Listed)
    ensures l.at >= sofar.at
    decreases Remaining(toks, sofar.at), 11
  {
    if At(toks, sofar.at) == close || At(toks, sofar.at).EOF? then sofar
    else
      var p := Ternary(toks, sofar.at);
      Elements(toks, Listed(sofar.es + [p.e], if At(toks, p.next).COMMA? then p.next + 1 else p.next,
          sofar.errs + p.errs), close)
  }

  // ---- The trees the grammar can express ----

  /** Levels: 0 conditional, 1 ||, 2 &&, 3 == and !=, 4 +, 5 primary. There are no parentheses. */
  ghost predicate Expressible(e: Expr, level: nat)
    decreases e
  {
    match e
    case Cond(c, y, n) => level == 0 && Expressible(c, 1) && Expressible(y, 0) && Expressible(n, 0)
    case Bin(l, Or, r) => level <= 1 && Expressible(l, 1) && Expressible(r, 2)
    case Bin(l, And, r) => level <= 2 && Expressible(l, 2) && Expressible(r, 3)
    case Bin(l, Eq, r) => level <= 3 && Expressible(l, 4) && Expressible(r, 4)
    case Bin(l, Neq, r) => level <= 3 && Expressible(l, 4) && Expressible(r, 4)
    case Bin(l, Add, r) => level <= 4 && Expressible(l, 4) && Expressible(r, 5)
    case List(es) => AllExpressible(es)
    case Call(f, args) => f != "secret" && AllExpressible(args)
    case _ => true
  }

  ghost predicate AllExpressible(es: seq<Expr>)
    decreases es
  {
    es == [] || (Expressible(es[0], 0) && AllExpressible(es[1..]))
  }

  function OpToken(op: Op): Token {
    match op case Add => PLUS case And => AMPAMP case Or => PIPEPIPE case Eq => EQEQ case Neq => BANGEQ
  }

  /** The canonical tokens of a tree. */
  function Print(e: Expr): seq<Token> {
    match e
    case Str(s) => [STRING(s)]
    case Bool(b) => [BOOL(if b then "true" else "false")]
    case Num(n) => [NUMBER(n)]
    case Ident(x) => [IDENT(x)]
    case Secret(k) => [IDENT("secret"), LPAREN, STRING(k), RPAREN]
    case List(es) => [LBRACKET] + PrintAll(es) + [RBRACKET]
    case Call(f, args) => [IDENT(f), LPAREN] + PrintAll(args) + [RPAREN]
    case Bin(l, op, r) => Print(l) + [OpToken(op)] + Print(r)
    case Cond(c, y, n) => Print(c) + [QUESTION] + Print(y) + [COLON] + Print(n)
  }

  function PrintAll(es: seq<Expr>): seq<Token> {
    if es == [] then []
    else if |es| == 1 then Print(es[0])
    else Print(es[0]) + [COMMA] + PrintAll(es[1..])
  }

  /** t cannot extend an expression of the given level. */
  predicate Ends(t: Token, level: nat) {
    && !t.LPAREN?
    && (level <= 4 ==> !t.PLUS?)
    && (level <= 3 ==> !t.EQEQ? && !t.BANGEQ?)
    && (level <= 2 ==> !t.AMPAMP?)
    && (level <= 1 ==> !t.PIPEPIPE?)
    && (level <= 0 ==> !t.QUESTION?)
  }

  // ---- The canonical tokens, read in place ----

  function Size(e: Expr): nat {
    match e
    case Secret(_) => 4
    case List(es) => SizeAll(es) + 2
    case Call(_, args) => SizeAll(args) + 3
    case Bin(l, _, r) => Size(l) + 1 + Size(r)
    case Cond(c, y, n) => Size(c) + 1 + Size(y) + 1 + Size(n)
    case _ => 1
  }

  function SizeAll(es: seq<Expr>): nat {
    if es == [] then 0 else if |es| == 1 then Size(es[0]) else Size(es[0]) + 1 + SizeAll(es[1..])
  }

  /** The canonical tokens of e stand in toks from i on. */
  ghost predicate Spells(toks: seq<Token>, i: nat, e: Expr)
    decreases e
  {
    match e
    case Str(s) => At(toks, i) == STRING(s)
    case Bool(b) => At(toks, i) == BOOL(if b then "true" else "false")
    case Num(n) => At(toks, i) == NUMBER(n)
    case Ident(x) => At(toks, i) == IDENT(x)
    case Secret(k) => At(toks, i) == IDENT("secret") && At(toks, i + 1) == LPAREN && At(toks, i + 2) == STRING(k)
        && At(toks, i + 3) == RPAREN
    case List(es) => At(toks, i) == LBRACKET && SpellsAll(toks, i + 1, es) && At(toks, i + 1 + SizeAll(es)) == RBRACKET
    case Call(f, args) =>
      At(toks, i) == IDENT(f) && At(toks, i + 1) == LPAREN && SpellsAll(toks, i + 2, args)
          && At(toks, i + 2 + SizeAll(args)) == RPAREN
    case Bin(l, op, r) => Spells(toks, i, l) && At(toks, i + Size(l)) == OpToken(op) && Spells(toks, i + Size(l) + 1, r)
    case Cond(c, y, n) =>
      var iy := i + Size(c) + 1;
      && Spells(toks, i, c) && At(toks, iy - 1) == QUESTION
      && Spells(toks, iy, y) && At(toks, iy + Size(y)) == COLON
      && Spells(toks, iy + Size(y) + 1, n)
  }

  ghost predicate SpellsAll(toks: seq<Token>, i: nat, es: seq<Expr>)
    decreases es
  {
    es == [] || (Spells(toks, i, es[0]) && (|es| > 1
        ==> At(toks, i + Size(es[0])) == COMMA && SpellsAll(toks, i + Size(es[0]) + 1, es[1..])))
  }

  function Parse(toks: seq<Token>, i: nat, level: nat): Parsed {
    match level
    case 0 => Ternary(toks, i)
    case 1 => LogicalOr(toks, i)
    case 2 => LogicalAnd(toks, i)
    case 3 => Equality(toks, i)
    case 4 => Concat(toks, i)
    case _ => Primary(toks, i)
  }

  predicate Starts(t: Token) {
    t.STRING? || t.BOOL? || t.NUMBER? || t.IDENT? || t.LBRACKET?
  }

  lemma {:induction false} SpellingStarts(toks: seq<Token>, i: nat, e: Expr)
    requires Spells(toks, i, e)
    ensures Starts(At(toks, i))
    decreases e
  {
    match e
    case Bin(l, _, _) => SpellingStarts(toks, i, l);
    case Cond(c, _, _) => SpellingStarts(toks, i, c);
    case _ =>
  }

  lemma {:induction false} LowerLevels(e: Expr, level: nat, lower: nat)
    requires Expressible(e, level) && lower <= level
    ensures Expressible(e, lower)
  {
  }

  /** The level whose rule builds e. */
  function LevelOf(e: Expr): nat {
    match e
    case Cond(_, _, _) => 0
    case Bin(_, op, _) => (match op case Or => 1 case And => 2 case Eq => 3 case Neq => 3 case Add => 4)
    case _ => 5
  }

  // ---- One rule at a time ----

  /** t is no operator of this level. */
  predicate NoOperator(t: Token, level: nat) {
    match level
    case 0 => !t.QUESTION?
    case 1 => !t.PIPEPIPE?
    case 2 => !t.AMPAMP?
    case 3 => !t.EQEQ? && !t.BANGEQ?
    case 4 => !t.PLUS?
    case _ => true
  }

  lemma NothingMore(toks: seq<Token>, i: nat, level: nat)
    requires level < 5 && NoOperator(At(toks, Parse(toks, i, level + 1).next), level)
    ensures Parse(toks, i, level) == Parse(toks, i, level + 1)
  {
    if level == 0 {
    } else if level == 3 {
    } else {
      LoopStarts(toks, i, level);
      LoopEnds(toks, Parse(toks, i, level + 1), level);
    }
  }

  lemma TernaryRule(toks: seq<Token>, i: nat, c: Parsed, y: Parsed, n: Parsed)
    requires c.errs == y.errs == n.errs == []
    requires LogicalOr(toks, i) == c && At(toks, c.next) == QUESTION
    requires Ternary(toks, c.next + 1) == y && At(toks, y.next) == COLON
    requires Ternary(toks, y.next + 1) == n
    ensures Ternary(toks, i) == Parsed(Cond(c.e, y.e, n.e), n.next, [])
  {
    assert c.errs + y.errs + n.errs == [];
  }

  lemma EqualityRule(toks: seq<Token>, i: nat, l: Parsed, op: Op, r: Parsed)
    requires (op.Eq? || op.Neq?) && l.errs == r.errs == []
    requires Concat(toks, i) == l && At(toks, l.next) == OpToken(op) && Concat(toks, l.next + 1) == r
    ensures Equality(toks, i) == Parsed(Bin(l.e, op, r.e), r.next, [])
  {
    assert l.errs + r.errs == [];
  }

  lemma LastElement(toks: seq<Token>, done: seq<Expr>, close: Token, e: Expr, i: nat, end: nat)
    requires (close.RBRACKET? || close.RPAREN?) && Starts(At(toks, i)) && Ternary(toks, i) == Parsed(e, end, [])
    requires At(toks, end) == close
    ensures Elements(toks, Listed(done, i, []), close) == Listed(done + [e], end, [])
  {
    var next := Listed(done + [e], end, []);
    assert Elements(toks, next, close) == next;
  }

  lemma NextElement(toks: seq<Token>, done: seq<Expr>, close: Token, e: Expr, i: nat, end: nat)
    requires (close.RBRACKET? || close.RPAREN?) && Starts(At(toks, i)) && Ternary(toks, i) == Parsed(e, end, [])
    requires At(toks, end) == COMMA
    ensures Elements(toks, Listed(done, i, []), close) == Elements(toks, Listed(done + [e], end + 1, []), close)
  {
    assert Listed(done, i, []).errs + Parsed(e, end, []).errs == [];
  }

  lemma ListRule(toks: seq<Token>, i: nat, l: Listed)
    requires At(toks, i) == LBRACKET && Elements(toks, Listed([], i + 1, []), RBRACKET) == l
      && At(toks, l.at) == RBRACKET
    ensures Primary(toks, i) == Parsed(List(l.es), l.at + 1, l.errs)
  {
    assert l.errs + [] == l.errs;
  }

  lemma CallRule(toks: seq<Token>, i: nat, f: string, l: Listed)
    requires f != "secret" && At(toks, i) == IDENT(f) && At(toks, i + 1) == LPAREN
    requires Elements(toks, Listed([], i + 2, []), RPAREN) == l && At(toks, l.at) == RPAREN
    ensures Primary(toks, i) == Parsed(Call(f, l.es), l.at + 1, l.errs)
  {
    assert l.errs + [] == l.errs;
  }

  /** The loop of a left-associative level, with `left` parsed so far. */
  function Loop(toks: seq<Token>, left: Parsed, level: nat): Parsed {
    match level
    case 1 => OrRest(toks, left)
    case 2 => AndRest(toks, left)
    case 4 => ConcatRest(toks, left)
    case _ => left
  }

  predicate LeftAssociative(level: nat) {
    level == 1 || level == 2 || level == 4
  }

  lemma LoopStarts(toks: seq<Token>, i: nat, level: nat)
    requires LeftAssociative(level)
    ensures Parse(toks, i, level) == Loop(toks, Parse(toks, i, level + 1), level)
  {
  }

  lemma LoopTurns(toks: seq<Token>, l: Parsed, op: Op, r: Parsed, level: nat)
    requires LeftAssociative(level) && LevelOf(Bin(l.e, op, r.e)) == level && l.errs == r.errs == []
    requires At(toks, l.next) == OpToken(op) && Parse(toks, l.next + 1, level + 1) == r
    ensures Loop(toks, l, level) == Loop(toks, Parsed(Bin(l.e, op, r.e), r.next, []), level)
  {
    assert Join(l, op, r) == Parsed(Bin(l.e, op, r.e), r.next, []);
  }

  lemma LoopEnds(toks: seq<Token>, left: Parsed, level: nat)
    requires LeftAssociative(level) && NoOperator(At(toks, left.next), level)
    ensures Loop(toks, left, level) == left
  {
  }

  // ---- The round trip ----

  /** An expressible tree is spelt from i to end, before a token that cannot extend level `stop`. */
  ghost predicate Ready(e: Expr, level: nat, stop: nat, toks: seq<Token>, i: nat, end: nat) {
    Expressible(e, level) && Spells(toks, i, e) && end == i + Size(e) && Ends(At(toks, end), stop)
  }

  ghost predicate AllReady(es: seq<Expr>, close: Token, toks: seq<Token>, i: nat, end: nat) {
    && (close.RBRACKET? || close.RPAREN?)
    && AllExpressible(es) && SpellsAll(toks, i, es) && end == i + SizeAll(es) && At(toks, end) == close
  }

  lemma EqualityReady(l: Expr, op: Op, r: Expr, toks: seq<Token>, i: nat, end: nat) returns (at: nat)
    requires (op.Eq? || op.Neq?) && Ready(Bin(l, op, r), 3, 3, toks, i, end)
    ensures Ready(l, 4, 4, toks, i, at) && At(toks, at) == OpToken(op) && Ready(r, 4, 4, toks, at + 1, end)
  {
    at := i + Size(l);
  }

  lemma OperandsReady(l: Expr, op: Op, r: Expr, level: nat, toks: seq<Token>, i: nat, end: nat) returns (at: nat)
    requires LeftAssociative(level) && LevelOf(Bin(l, op, r)) == level
        && Ready(Bin(l, op, r), level, level + 1, toks, i, end)
    ensures Ready(l, level, level + 1, toks, i, at) && At(toks, at) == OpToken(op)
        && Ready(r, level + 1, level + 1, toks, at + 1, end)
  {
    at := i + Size(l);
  }

  lemma CondReady(c: Expr, y: Expr, n: Expr, toks: seq<Token>, i: nat, end: nat) returns (question: nat, colon: nat)
    requires Ready(Cond(c, y, n), 0, 0, toks, i, end)
    ensures Ready(c, 1, 1, toks, i, question) && At(toks, question) == QUESTION
    ensures Ready(y, 0, 0, toks, question + 1, colon) && At(toks, colon) == COLON
    ensures Ready(n, 0, 0, toks, colon + 1, end)
  {
    question := i + Size(c);
    colon := question + 1 + Size(y);
  }

  lemma FirstThenRest<T>(done: seq<T>, es: seq<T>)
    requires es != []
    ensures done + [es[0]] + es[1..] == done + es
    ensures |es| == 1 ==> done + [es[0]] == done + es
  {
  }

  /** A list of two or more: the first element stands before a comma and the rest. */
  lemma FirstReady(es: seq<Expr>, close: Token, toks: seq<Token>, i: nat, end: nat) returns (comma: nat)
    requires |es| > 1 && AllReady(es, close, toks, i, end)
    ensures Ready(es[0], 0, 0, toks, i, comma) && At(toks, comma) == COMMA
        && AllReady(es[1..], close, toks, comma + 1, end)
  {
    comma := i + Size(es[0]);
  }

  lemma LastReady(es: seq<Expr>, close: Token, toks: seq<Token>, i: nat, end: nat)
    requires |es| == 1 && AllReady(es, close, toks, i, end)
    ensures Ready(es[0], 0, 0, toks, i, end)
  {
  }

  lemma ReadyStarts(e: Expr, toks: seq<Token>, i: nat, end: nat)
    requires Ready(e, 0, 0, toks, i, end)
    ensures Starts(At(toks, i))
  {
    SpellingStarts(toks, i, e);
  }

  /** Parsing at a level from i on gives e, with no error, and consumes the tokens before end. */
  ghost predicate ComesBack(e: Expr, level: nat, toks: seq<Token>, i: nat, end: nat) {
    Parse(toks, i, level) == Parsed(e, end, [])
  }

  /** Parsing its canonical tokens, before any token that cannot extend it, gives an expressible
      tree back. */
  lemma {:induction false} RoundTrip(e: Expr, level: nat, toks: seq<Token>, i: nat, end: nat)
    requires level <= 5 && Ready(e, level, level, toks, i, end)
    ensures ComesBack(e, level, toks, i, end)
    decreases e, 5 - level, 3
  {
    if level < LevelOf(e) {
      NextLevelReady(e, level, level, toks, i, end);
      RoundTrip(e, level + 1, toks, i, end);
      NothingMore(toks, i, level);
    } else {
      LevelFits(e, level);
      match e
      case Cond(c, y, n) => CondRoundTrip(c, y, n, toks, i, end);
      case Bin(l, op, r) => BinRoundTrip(l, op, r, level, toks, i, end);
      case List(es) => ListRoundTrip(es, toks, i, end);
      case Call(f, args) => CallRoundTrip(f, args, toks, i, end);
      case Secret(k) => SecretRoundTrip(k, toks, i, end);
      case _ => LeafRoundTrip(e, toks, i, end);
    }
  }

  lemma LevelFits(e: Expr, level: nat)
    requires level <= 5 && Expressible(e, level) && level >= LevelOf(e)
    ensures level == LevelOf(e)
  {
  }

  lemma NextLevelReady(e: Expr, level: nat, stop: nat, toks: seq<Token>, i: nat, end: nat)
    requires level < LevelOf(e) && level <= stop <= level + 1 && Ready(e, level, stop, toks, i, end)
    ensures Ready(e, level + 1, level + 1, toks, i, end)
  {
  }

  lemma LeafRoundTrip(e: Expr, toks: seq<Token>, i: nat, end: nat)
    requires e.Str? || e.Bool? || e.Num? || e.Ident?
    requires Ready(e, 5, 5, toks, i, end)
    ensures ComesBack(e, 5, toks, i, end)
  {
  }

  lemma SecretRoundTrip(k: string, toks: seq<Token>, i: nat, end: nat)
    requires Ready(Secret(k), 5, 5, toks, i, end)
    ensures ComesBack(Secret(k), 5, toks, i, end)
  {
    assert SecretRef(toks, i) == Parsed(Secret(k), i + 4, []);
  }

  lemma {:induction false} CondRoundTrip(c: Expr, y: Expr, n: Expr, toks: seq<Token>, i: nat, end: nat)
    requires Ready(Cond(c, y, n), 0, 0, toks, i, end)
    ensures ComesBack(Cond(c, y, n), 0, toks, i, end)
    decreases Cond(c, y, n), 5, 1
  {
    var question, colon := CondReady(c, y, n, toks, i, end);
    RoundTrip(c, 1, toks, i, question);
    RoundTrip(y, 0, toks, question + 1, colon);
    RoundTrip(n, 0, toks, colon + 1, end);
    CondComesBack(c, y, n, toks, i, question, colon, end);
  }

  lemma CondComesBack(c: Expr, y: Expr, n: Expr, toks: seq<Token>, i: nat, question: nat, colon: nat, end: nat)
    requires ComesBack(c, 1, toks, i, question) && At(toks, question) == QUESTION
    requires ComesBack(y, 0, toks, question + 1, colon) && At(toks, colon) == COLON
    requires ComesBack(n, 0, toks, colon + 1, end)
    ensures ComesBack(Cond(c, y, n), 0, toks, i, end)
  {
    TernaryRule(toks, i, Parsed(c, question, []), Parsed(y, colon, []), Parsed(n, end, []));
  }

  lemma {:induction false} BinRoundTrip(l: Expr, op: Op, r: Expr, level: nat, toks: seq<Token>, i: nat, end: nat)
    requires level == LevelOf(Bin(l, op, r)) && Ready(Bin(l, op, r), level, level, toks, i, end)
    ensures ComesBack(Bin(l, op, r), level, toks, i, end)
    decreases Bin(l, op, r), 5 - level, 2
  {
    if op.Eq? || op.Neq? {
      var at := EqualityReady(l, op, r, toks, i, end);
      RoundTrip(l, 4, toks, i, at);
      RoundTrip(r, 4, toks, at + 1, end);
      EqualityRule(toks, i, Parsed(l, at, []), op, Parsed(r, end, []));
    } else {
      StopsEarlier(Bin(l, op, r), level, toks, i, end);
      BinLeftOperand(l, op, r, level, toks, i, end);
      LoopEnds(toks, Parsed(Bin(l, op, r), end, []), level);
    }
  }

  lemma StopsEarlier(e: Expr, level: nat, toks: seq<Token>, i: nat, end: nat)
    requires Ready(e, level, level, toks, i, end)
    ensures Ready(e, level, level + 1, toks, i, end)
  {
  }

  /** At a left-associative level, parsing reaches the loop with the whole tree as the left
      operand, even when the next token continues the loop. */
  lemma {:induction false} LeftOperand(e: Expr, level: nat, toks: seq<Token>, i: nat, end: nat)
    requires LeftAssociative(level) && Ready(e, level, level + 1, toks, i, end)
    ensures Parse(toks, i, level) == Loop(toks, Parsed(e, end, []), level)
    decreases e, 5 - level, 1
  {
    if level == LevelOf(e) {
      BinLeftOperand(e.left, e.op, e.right, level, toks, i, end);
    } else {
      AboveLevel(e, level);
      NextLevelReady(e, level, level + 1, toks, i, end);
      RoundTrip(e, level + 1, toks, i, end);
      LoopStarts(toks, i, level);
    }
  }

  lemma AboveLevel(e: Expr, level: nat)
    requires LeftAssociative(level) && Expressible(e, level) && level != LevelOf(e)
    ensures level < LevelOf(e)
  {
  }

  lemma {:induction false} BinLeftOperand(l: Expr, op: Op, r: Expr, level: nat, toks: seq<Token>, i: nat, end: nat)
    requires LeftAssociative(level) && LevelOf(Bin(l, op, r)) == level
        && Ready(Bin(l, op, r), level, level + 1, toks, i, end)
    ensures Parse(toks, i, level) == Loop(toks, Parsed(Bin(l, op, r), end, []), level)
    decreases Bin(l, op, r), 5 - level, 0
  {
    var at := OperandsReady(l, op, r, level, toks, i, end);
    LeftOperand(l, level, toks, i, at);
    RoundTrip(r, level + 1, toks, at + 1, end);
    LoopTurns(toks, Parsed(l, at, []), op, Parsed(r, end, []), level);
  }

  lemma {:induction false} ElementsComeBack(es: seq<Expr>, done: seq<Expr>, close: Token, toks: seq<Token>, i: nat,
      end: nat)
    requires AllReady(es, close, toks, i, end)
    ensures Elements(toks, Listed(done, i, []), close) == Listed(done + es, end, [])
    decreases es, 0, 0
  {
    if es == [] {
      assert done + es == done;
    } else if |es| == 1 {
      LastReady(es, close, toks, i, end);
      ReadyStarts(es[0], toks, i, end);
      RoundTrip(es[0], 0, toks, i, end);
      LastElement(toks, done, close, es[0], i, end);
      FirstThenRest(done, es);
    } else {
      var comma := FirstReady(es, close, toks, i, end);
      ReadyStarts(es[0], toks, i, comma);
      RoundTrip(es[0], 0, toks, i, comma);
      NextElement(toks, done, close, es[0], i, comma);
      ElementsComeBack(es[1..], done + [es[0]], close, toks, comma + 1, end);
      FirstThenRest(done, es);
    }
  }

  lemma {:induction false} ListRoundTrip(es: seq<Expr>, toks: seq<Token>, i: nat, end: nat)
    requires Ready(List(es), 5, 5, toks, i, end)
    ensures ComesBack(List(es), 5, toks, i, end)
    decreases List(es), 0, 1
  {
    ElementsComeBack(es, [], RBRACKET, toks, i + 1, end - 1);
    assert [] + es == es;
    ListRule(toks, i, Listed(es, end - 1, []));
  }

  lemma {:induction false} CallRoundTrip(f: string, args: seq<Expr>, toks: seq<Token>, i: nat, end: nat)
    requires Ready(Call(f, args), 5, 5, toks, i, end)
    ensures ComesBack(Call(f, args), 5, toks, i, end)
    decreases Call(f, args), 0, 1
  {
    ElementsComeBack(args, [], RPAREN, toks, i + 2, end - 1);
    assert [] + args == args;
    CallRule(toks, i, f, Listed(args, end - 1, []));
  }

  // ---- Back to token sequences ----

  /** p stands in toks from i on. */
  ghost predicate Stands(toks: seq<Token>, i: nat, p: seq<Token>) {
    i + |p| <= |toks| && toks[i..i + |p|] == p
  }

  lemma StandsSplit(toks: seq<Token>, i: nat, p: seq<Token>, q: seq<Token>)
    requires Stands(toks, i, p + q)
    ensures Stands(toks, i, p) && Stands(toks, i + |p|, q)
  {
    assert toks[i..i + |p|] == (p + q)[..|p|];
    assert toks[i + |p|..i + |p| + |q|] == (p + q)[|p|..];
  }

  lemma StandsOne(toks: seq<Token>, i: nat, t: Token)
    requires Stands(toks, i, [t])
    ensures At(toks, i) == t
  {
    assert toks[i..i + 1][0] == t;
  }

  lemma StandsThree(toks: seq<Token>, i: nat, p: seq<Token>, t: Token, q: seq<Token>)
    requires Stands(toks, i, p + [t] + q)
    ensures Stands(toks, i, p) && At(toks, i + |p|) == t && Stands(toks, i + |p| + 1, q)
  {
    StandsSplit(toks, i, p + [t], q);
    StandsSplit(toks, i, p, [t]);
    StandsOne(toks, i + |p|, t);
  }

  /** Where e ends if it is spelt at i. */
  ghost function SpeltEnd(e: Expr, toks: seq<Token>, i: nat): int {
    if Spells(toks, i, e) then i + Size(e) else -1
  }

  ghost predicate SpeltTo(e: Expr, toks: seq<Token>, i: nat, end: nat) {
    SpeltEnd(e, toks, i) == end
  }

  ghost function SpanOf(e: Expr): seq<Token> {
    Print(e)
  }

  ghost predicate PrintedAt(e: Expr, p: seq<Token>, toks: seq<Token>, i: nat) {
    SpanOf(e) == p && Stands(toks, i, p)
  }

  ghost predicate AllPrintedAt(es: seq<Expr>, ps: seq<Token>, toks: seq<Token>, i: nat) {
    ps == PrintAll(es) && Stands(toks, i, ps)
  }

  ghost function AllSpeltEnd(es: seq<Expr>, toks: seq<Token>, i: nat): int {
    if SpellsAll(toks, i, es) then i + SizeAll(es) else -1
  }

  ghost predicate AllSpeltTo(es: seq<Expr>, toks: seq<Token>, i: nat, end: nat) {
    AllSpeltEnd(es, toks, i) == end
  }

  /** p is the printed form of e and stands at i: then e is spelt there. */
  lemma {:induction false} PrintSpells(e: Expr, p: seq<Token>, toks: seq<Token>, i: nat)
    requires PrintedAt(e, p, toks, i)
    ensures SpeltTo(e, toks, i, i + |p|)
    decreases e, 2
  {
    match e
    case List(es) => PrintListSpells(es, p, toks, i);
    case Call(f, args) => PrintCallSpells(f, args, p, toks, i);
    case Bin(l, op, r) => PrintBinSpells(l, op, r, p, toks, i);
    case Cond(c, y, n) => PrintCondSpells(c, y, n, p, toks, i);
    case Secret(k) => PrintSecretSpells(k, p, toks, i);
    case _ => StandsOne(toks, i, p[0]);
  }

  lemma {:induction false} PrintListSpells(es: seq<Expr>, p: seq<Token>, toks: seq<Token>, i: nat)
    requires PrintedAt(List(es), p, toks, i)
    ensures SpeltTo(List(es), toks, i, i + |p|)
    decreases List(es), 0
  {
    var ps := PrintAll(es);
    StandsSplit(toks, i, [LBRACKET] + ps, [RBRACKET]);
    StandsOne(toks, i + 1 + |ps|, RBRACKET);
    StandsSplit(toks, i, [LBRACKET], ps);
    StandsOne(toks, i, LBRACKET);
    PrintAllSpells(es, ps, toks, i + 1);
  }

  lemma {:induction false} PrintCallSpells(f: string, args: seq<Expr>, p: seq<Token>, toks: seq<Token>, i: nat)
    requires PrintedAt(Call(f, args), p, toks, i)
    ensures SpeltTo(Call(f, args), toks, i, i + |p|)
    decreases Call(f, args), 0
  {
    var ps := PrintAll(args);
    StandsSplit(toks, i, [IDENT(f), LPAREN] + ps, [RPAREN]);
    StandsOne(toks, i + 2 + |ps|, RPAREN);
    StandsSplit(toks, i, [IDENT(f), LPAREN], ps);
    StandsTwo(toks, i, IDENT(f), LPAREN);
    PrintAllSpells(args, ps, toks, i + 2);
  }

  lemma {:induction false} PrintBinSpells(l: Expr, op: Op, r: Expr, p: seq<Token>, toks: seq<Token>, i: nat)
    requires PrintedAt(Bin(l, op, r), p, toks, i)
    ensures SpeltTo(Bin(l, op, r), toks, i, i + |p|)
    decreases Bin(l, op, r), 0
  {
    var pl, pr := BinParts(l, op, r, p, toks, i);
    PrintSpells(l, pl, toks, i);
    PrintSpells(r, pr, toks, i + |pl| + 1);
    BinSpelt(l, op, r, toks, i, i + |pl|, i + |pl| + 1 + |pr|);
  }

  lemma BinParts(l: Expr, op: Op, r: Expr, p: seq<Token>, toks: seq<Token>, i: nat)
      returns (pl: seq<Token>, pr: seq<Token>)
    requires PrintedAt(Bin(l, op, r), p, toks, i)
    ensures |p| == |pl| + 1 + |pr|
    ensures PrintedAt(l, pl, toks, i) && At(toks, i + |pl|) == OpToken(op) && PrintedAt(r, pr, toks, i + |pl| + 1)
  {
    pl, pr := Print(l), Print(r);
    StandsThree(toks, i, pl, OpToken(op), pr);
  }

  lemma {:induction false} PrintCondSpells(c: Expr, y: Expr, n: Expr, p: seq<Token>, toks: seq<Token>, i: nat)
    requires PrintedAt(Cond(c, y, n), p, toks, i)
    ensures SpeltTo(Cond(c, y, n), toks, i, i + |p|)
    decreases Cond(c, y, n), 1
  {
    var pc, py, pn, question, colon, end := CondParts(c, y, n, p, toks, i);
    PrintSpells(c, pc, toks, i);
    BranchesSpell(c, y, n, py, pn, toks, question, colon, end);
    CondSpelt(c, y, n, toks, i, question, colon, end);
  }

  lemma {:induction false} BranchesSpell(c: Expr, y: Expr, n: Expr, py: seq<Token>, pn: seq<Token>, toks: seq<Token>,
      question: nat, colon: nat, end: nat)
    requires PrintedAt(y, py, toks, question + 1) && colon == question + 1 + |py|
    requires PrintedAt(n, pn, toks, colon + 1) && end == colon + 1 + |pn|
    ensures SpeltTo(y, toks, question + 1, colon) && SpeltTo(n, toks, colon + 1, end)
    decreases Cond(c, y, n), 0
  {
    PrintSpells(y, py, toks, question + 1);
    PrintSpells(n, pn, toks, colon + 1);
  }

  lemma CondParts(c: Expr, y: Expr, n: Expr, p: seq<Token>, toks: seq<Token>, i: nat)
    returns (pc: seq<Token>, py: seq<Token>, pn: seq<Token>, question: nat, colon: nat, end: nat)
    requires PrintedAt(Cond(c, y, n), p, toks, i)
    ensures PrintedAt(c, pc, toks, i) && question == i + |pc| && At(toks, question) == QUESTION
    ensures PrintedAt(y, py, toks, question + 1) && colon == question + 1 + |py| && At(toks, colon) == COLON
    ensures PrintedAt(n, pn, toks, colon + 1) && end == colon + 1 + |pn| == i + |p|
  {
    pc, py, pn := Print(c), Print(y), Print(n);
    question := i + |pc|;
    colon := question + 1 + |py|;
    end := colon + 1 + |pn|;
    StandsFive(toks, i, pc, QUESTION, py, COLON, pn);
  }

  lemma CondSpelt(c: Expr, y: Expr, n: Expr, toks: seq<Token>, i: nat, question: nat, colon: nat, end: nat)
    requires SpeltTo(c, toks, i, question) && At(toks, question) == QUESTION
    requires SpeltTo(y, toks, question + 1, colon) && At(toks, colon) == COLON
    requires SpeltTo(n, toks, colon + 1, end)
    ensures SpeltTo(Cond(c, y, n), toks, i, end)
  {
  }

  lemma BinSpelt(l: Expr, op: Op, r: Expr, toks: seq<Token>, i: nat, at: nat, end: nat)
    requires SpeltTo(l, toks, i, at) && At(toks, at) == OpToken(op) && SpeltTo(r, toks, at + 1, end)
    ensures SpeltTo(Bin(l, op, r), toks, i, end)
  {
  }

  lemma PrintSecretSpells(k: string, p: seq<Token>, toks: seq<Token>, i: nat)
    requires PrintedAt(Secret(k), p, toks, i)
    ensures SpeltTo(Secret(k), toks, i, i + |p|)
  {
    assert p == [IDENT("secret"), LPAREN] + [STRING(k), RPAREN];
    StandsSplit(toks, i, [IDENT("secret"), LPAREN], [STRING(k), RPAREN]);
    StandsTwo(toks, i, IDENT("secret"), LPAREN);
    StandsTwo(toks, i + 2, STRING(k), RPAREN);
  }

  lemma {:induction false} PrintAllSpells(es: seq<Expr>, ps: seq<Token>, toks: seq<Token>, i: nat)
    requires AllPrintedAt(es, ps, toks, i)
    ensures AllSpeltTo(es, toks, i, i + |ps|)
    decreases es, 0
  {
    if |es| == 1 {
      PrintSpells(es[0], ps, toks, i);
      OneSpelt(es, toks, i, i + |ps|);
    } else if |es| > 1 {
      var p, rest, at, end := AllParts(es, ps, toks, i);
      PrintSpells(es[0], p, toks, i);
      PrintAllSpells(es[1..], rest, toks, at + 1);
      MoreSpelt(es, toks, i, at, end);
    }
  }

  lemma AllParts(es: seq<Expr>, ps: seq<Token>, toks: seq<Token>, i: nat)
    returns (p: seq<Token>, rest: seq<Token>, at: nat, end: nat)
    requires AllPrintedAt(es, ps, toks, i) && |es| > 1
    ensures PrintedAt(es[0], p, toks, i) && at == i + |p| && At(toks, at) == COMMA
    ensures AllPrintedAt(es[1..], rest, toks, at + 1) && end == at + 1 + |rest| == i + |ps|
  {
    p, rest := Print(es[0]), PrintAll(es[1..]);
    at := i + |p|;
    end := at + 1 + |rest|;
    StandsThree(toks, i, p, COMMA, rest);
  }

  lemma OneSpelt(es: seq<Expr>, toks: seq<Token>, i: nat, end: nat)
    requires |es| == 1 && SpeltTo(es[0], toks, i, end)
    ensures AllSpeltTo(es, toks, i, end)
  {
  }

  lemma MoreSpelt(es: seq<Expr>, toks: seq<Token>, i: nat, at: nat, end: nat)
    requires |es| > 1 && SpeltTo(es[0], toks, i, at) && At(toks, at) == COMMA
    requires AllSpeltTo(es[1..], toks, at + 1, end)
    ensures AllSpeltTo(es, toks, i, end)
  {
  }

  lemma StandsTwo(toks: seq<Token>, i: nat, t: Token, u: Token)
    requires Stands(toks, i, [t, u])
    ensures At(toks, i) == t && At(toks, i + 1) == u
  {
    assert toks[i..i + 2][0] == t && toks[i..i + 2][1] == u;
  }

  lemma StandsFive(toks: seq<Token>, i: nat, p: seq<Token>, t: Token, q: seq<Token>, u: Token, r: seq<Token>)
    requires Stands(toks, i, p + [t] + q + [u] + r)
    ensures Stands(toks, i, p) && At(toks, i + |p|) == t && Stands(toks, i + |p| + 1, q)
    ensures At(toks, i + |p| + 1 + |q|) == u && Stands(toks, i + |p| + 1 + |q| + 1, r)
  {
    StandsThree(toks, i, p + [t] + q, u, r);
    StandsThree(toks, i, p, t, q);
  }

  /** The parser inverts the printer: whatever stands before, and before any token that cannot
      extend the expression or at the end of input, the tree comes back without error and
      exactly its tokens are consumed. */
  lemma ParsePrint(e: Expr, before: seq<Token>, after: seq<Token>)
    requires Expressible(e, 0) && Ends(At(after, 0), 0)
    ensures Ternary(before + Print(e) + after, |before|) == Parsed(e, |before| + |Print(e)|, [])
  {
    var p := Print(e);
    var toks := before + p + after;
    assert toks[|before|..|before| + |p|] == p;
    assert At(toks, |before| + |p|) == At(after, 0);
    ParseAt(e, p, toks, |before|, |before| + |p|);
  }

  lemma ParseAt(e: Expr, p: seq<Token>, toks: seq<Token>, i: nat, end: nat)
    requires PrintedAt(e, p, toks, i) && end == i + |p| && Expressible(e, 0) && Ends(At(toks, end), 0)
    ensures Ternary(toks, i) == Parsed(e, end, [])
  {
    PrintSpells(e, p, toks, i);
    RoundTrip(e, 0, toks, i, end);
  }

  // ---- Nothing else comes out of the parser ----

  lemma {:induction false} TernaryIsExpressible(toks: seq<Token>, i: nat)
    ensures Expressible(Ternary(toks, i).e, 0)
    decreases Remaining(toks, i), 10
  {
    OrIsExpressible(toks, i);
    var c := LogicalOr(toks, i);
    LowerLevels(c.e, 1, 0);
    if At(toks, c.next).QUESTION? {
      TernaryIsExpressible(toks, c.next + 1);
      var y := Ternary(toks, c.next + 1);
      if At(toks, y.next).COLON? { TernaryIsExpressible(toks, y.next + 1); }
    }
  }

  lemma {:induction false} OrIsExpressible(toks: seq<Token>, i: nat)
    ensures Expressible(LogicalOr(toks, i).e, 1)
    decreases Remaining(toks, i), 9
  {
    AndIsExpressible(toks, i);
    LowerLevels(LogicalAnd(toks, i).e, 2, 1);
    OrRestIsExpressible(toks, LogicalAnd(toks, i));
  }

  lemma {:induction false} OrRestIsExpressible(toks: seq<Token>, left: Parsed)
    requires Expressible(left.e, 1)
    ensures Expressible(OrRest(toks, left).e, 1)
    decreases Remaining(toks, left.next), 8
  {
    if At(toks, left.next).PIPEPIPE? {
      AndIsExpressible(toks, left.next + 1);
      OrRestIsExpressible(toks, Join(left, Or, LogicalAnd(toks, left.next + 1)));
    }
  }

  lemma {:induction false} AndIsExpressible(toks: seq<Token>, i: nat)
    ensures Expressible(LogicalAnd(toks, i).e, 2)
    decreases Remaining(toks, i), 7
  {
    EqualityIsExpressible(toks, i);
    LowerLevels(Equality(toks, i).e, 3, 2);
    AndRestIsExpressible(toks, Equality(toks, i));
  }

  lemma {:induction false} AndRestIsExpressible(toks: seq<Token>, left: Parsed)
    requires Expressible(left.e, 2)
    ensures Expressible(AndRest(toks, left).e, 2)
    decreases Remaining(toks, left.next), 6
  {
    if At(toks, left.next).AMPAMP? {
      EqualityIsExpressible(toks, left.next + 1);
      AndRestIsExpressible(toks, Join(left, And, Equality(toks, left.next + 1)));
    }
  }

  lemma {:induction false} EqualityIsExpressible(toks: seq<Token>, i: nat)
    ensures Expressible(Equality(toks, i).e, 3)
    decreases Remaining(toks, i), 5
  {
    ConcatIsExpressible(toks, i);
    var l := Concat(toks, i);
    LowerLevels(l.e, 4, 3);
    if At(toks, l.next).EQEQ? || At(toks, l.next).BANGEQ? { ConcatIsExpressible(toks, l.next + 1); }
  }

  lemma {:induction false} ConcatIsExpressible(toks: seq<Token>, i: nat)
    ensures Expressible(Concat(toks, i).e, 4)
    decreases Remaining(toks, i), 4
  {
    PrimaryIsExpressible(toks, i);
    LowerLevels(Primary(toks, i).e, 5, 4);
    ConcatRestIsExpressible(toks, Primary(toks, i));
  }

  lemma {:induction false} ConcatRestIsExpressible(toks: seq<Token>, left: Parsed)
    requires Expressible(left.e, 4)
    ensures Expressible(ConcatRest(toks, left).e, 4)
    decreases Remaining(toks, left.next), 3
  {
    if At(toks, left.next).PLUS? {
      PrimaryIsExpressible(toks, left.next + 1);
      ConcatRestIsExpressible(toks, Join(left, Add, Primary(toks, left.next + 1)));
    }
  }

  lemma {:induction false} PrimaryIsExpressible(toks: seq<Token>, i: nat)
    ensures Expressible(Primary(toks, i).e, 5)
    decreases Remaining(toks, i), 2
  {
    match At(toks, i)
    case LBRACKET =>
      ElementsAreExpressible(toks, Listed([], i + 1, []), RBRACKET);
      assert Primary(toks, i) == ListLiteral(toks, i);
    case IDENT(x) =>
      if At(toks, i + 1).LPAREN? {
        if x == "secret" {
          assert Primary(toks, i).e.Secret?;
        } else {
          ElementsAreExpressible(toks, Listed([], i + 2, []), RPAREN);
          assert Primary(toks, i) == FunctionCall(toks, x, i);
        }
      }
    case _ =>
  }

  lemma {:induction false} ElementsAreExpressible(toks: seq<Token>, sofar: Listed, close: Token)
    requires AllExpressible(sofar.es)
    ensures AllExpressible(Elements(toks, sofar, close).es)
    decreases Remaining(toks, sofar.at), 11
  {
    if At(toks, sofar.at) != close && !At(toks, sofar.at).EOF? {
      TernaryIsExpressible(toks, sofar.at);
      var p := Ternary(toks, sofar.at);
      OneMoreExpressible(sofar.es, p.e);
      ElementsAreExpressible(toks,
          Listed(sofar.es + [p.e], if At(toks, p.next).COMMA? then p.next + 1 else p.next, sofar.errs + p.errs), close);
    }
  }

  lemma {:induction false} OneMoreExpressible(es: seq<Expr>, e: Expr)
    requires AllExpressible(es) && Expressible(e, 0)
    ensures AllExpressible(es + [e])
    decreases |es|
  {
    if es != [] {
      OneMoreExpressible(es[1..], e);
      assert (es + [e])[1..] == es[1..] + [e];
    }
  }

  /** The trees the parser can return, even after an error, are exactly the expressible ones. */
  lemma ParsedIffExpressible(e: Expr)
    ensures (exists toks: seq<Token>, i: nat :: Ternary(toks, i).e == e) <==> Expressible(e, 0)
  {
    if toks: seq<Token>, i: nat :| Ternary(toks, i).e == e {
      TernaryIsExpressible(toks, i);
    }
    if Expressible(e, 0) {
      ParsePrint(e, [], []);
      assert Ternary([] + Print(e) + [], 0).e == e;
    }
  }

  /** Printing what was parsed and parsing that again changes nothing: optional commas and the
      like are all the parser forgets. */
  lemma ReparseIsStable(toks: seq<Token>, i: nat)
    ensures var e := Ternary(toks, i).e; Ternary(Print(e), 0) == Parsed(e, |Print(e)|, [])
  {
    TernaryIsExpressible(toks, i);
    var e := Ternary(toks, i).e;
    ParsePrint(e, [], []);
    assert [] + Print(e) + [] == Print(e);
  }
}
