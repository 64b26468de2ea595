/** The expression grammar as a relation between tokens and trees, written without the parser, and
    what it says about the parser's errors: none is reported exactly where there is a derivation. */
module Derivations {
  import opened Expr
  import opened Grammar

  // ---- The grammar ----

  /** The tokens from i up to end derive e. An identifier before a parenthesis is a call. */
  ghost predicate Derives(toks: seq<Token>, i: nat, e: Expr, end: nat)
    decreases e, 1
  {
    match e
    case Str(s) => At(toks, i) == STRING(s) && end == i + 1
    case Bool(b) => At(toks, i).BOOL? && (At(toks, i).lexeme == "true" <==> b) && end == i + 1
    case Num(n) => At(toks, i) == NUMBER(n) && end == i + 1
    case Ident(x) => At(toks, i) == IDENT(x) && !At(toks, i + 1).LPAREN? && end == i + 1
    case Secret(k) =>
      && At(toks, i) == IDENT("secret") && At(toks, i + 1) == LPAREN && At(toks, i + 2) == STRING(k)
      && At(toks, i + 3) == RPAREN && end == i + 4
    case List(es) =>
      At(toks, i) == LBRACKET && i + 1 < end && DerivesAll(toks, i + 1, es, end - 1) && At(toks, end - 1) == RBRACKET
    case Call(f, args) =>
      && At(toks, i) == IDENT(f) && At(toks, i + 1) == LPAREN
      && i + 2 < end && DerivesAll(toks, i + 2, args, end - 1) && At(toks, end - 1) == RPAREN
    case Bin(l, op, r) => exists at: nat :: DerivesBin(toks, i, l, op, r, at, end)
    case Cond(c, y, n) => exists q: nat, colon: nat :: DerivesCond(toks, i, c, y, n, q, colon, end)
  }

  ghost predicate DerivesBin(toks: seq<Token>, i: nat, l: Expr, op: Op, r: Expr, at: nat, end: nat)
    decreases Bin(l, op, r), 0
  {
    Derives(toks, i, l, at) && At(toks, at) == OpToken(op) && Derives(toks, at + 1, r, end)
  }

  ghost predicate DerivesCond(toks: seq<Token>, i: nat, c: Expr, y: Expr, n: Expr, q: nat, colon: nat, end: nat)
    decreases Cond(c, y, n), 0
  {
    && Derives(toks, i, c, q) && At(toks, q) == QUESTION
    && Derives(toks, q + 1, y, colon) && At(toks, colon) == COLON
    && Derives(toks, colon + 1, n, end)
  }

  /** Elements: a comma after each, or none. */
  ghost predicate DerivesAll(toks: seq<Token>, i: nat, es: seq<Expr>, end: nat)
    decreases es, 1
  {
    if es == [] then end == i else exists mid: nat, next: nat :: DerivesFirst(toks, i, es, mid, next, end)
  }

  ghost predicate DerivesFirst(toks: seq<Token>, i: nat, es: seq<Expr>, mid: nat, next: nat, end: nat)
    requires es != []
    decreases es, 0
  {
    Derives(toks, i, es[0], mid) && AfterElement(toks, mid, next) && DerivesAll(toks, next, es[1..], end)
  }

  predicate AfterElement(toks: seq<Token>, mid: nat, next: nat) {
    next == mid || (At(toks, mid) == COMMA && next == mid + 1)
  }

  /** The right end of e is a comparison, which another one does not extend. */
  predicate EndsCompared(e: Expr) {
    match e
    case Cond(_, _, n) => EndsCompared(n)
    case Bin(_, op, r) => op.Eq? || op.Neq? || (!op.Add? && EndsCompared(r))
    case _ => false
  }

  /** t does not extend e, read at this level. */
  predicate Follows(e: Expr, level: nat, t: Token) {
    && (level <= 4 ==> !t.PLUS?)
    && (level <= 3 && !EndsCompared(e) ==> !t.EQEQ? && !t.BANGEQ?)
    && (level <= 2 ==> !t.AMPAMP?)
    && (level <= 1 ==> !t.PIPEPIPE?)
    && (level <= 0 ==> !t.QUESTION?)
  }

  /** The tokens from i up to end derive e at this level, and no further. */
  ghost predicate Derived(e: Expr, level: nat, toks: seq<Token>, i: nat, end: nat) {
    Expressible(e, level) && Derives(toks, i, e, end) && Follows(e, level, At(toks, end))
  }

  lemma {:induction false} DerivationStarts(toks: seq<Token>, i: nat, e: Expr, end: nat)
    requires Derives(toks, i, e, end)
    ensures Starts(At(toks, i)) && i < end
    decreases e
  {
    match e
    case Bin(l, op, r) =>
      var at: nat :| DerivesBin(toks, i, l, op, r, at, end);
      DerivationStarts(toks, i, l, at);
      DerivationStarts(toks, at + 1, r, end);
    case Cond(c, y, n) =>
      var q: nat, colon: nat :| DerivesCond(toks, i, c, y, n, q, colon, end);
      DerivationStarts(toks, i, c, q);
      DerivationStarts(toks, q + 1, y, colon);
      DerivationStarts(toks, colon + 1, n, end);
    case _ =>
  }

  // ---- What derives is parsed without error ----

  /** A derivation is found, and nothing is reported. */
  lemma {:induction false} DerivationIsParsed(e: Expr, level: nat, toks: seq<Token>, i: nat, end: nat)
    requires level <= 5 && Derived(e, level, toks, i, end)
    ensures Parse(toks, i, level) == Parsed(e, end, [])
    decreases e, 5 - level, 2
  {
    if level < LevelOf(e) {
      DerivationIsParsed(e, level + 1, toks, i, end);
      assert level == 3 ==> !EndsCompared(e);
      NothingMore(toks, i, level);
    } else if LeftAssociative(level) {
      LeftDerivation(e, level, toks, i, end);
      LoopEnds(toks, Parsed(e, end, []), level);
    } else {
      match e
      case Cond(c, y, n) => CondIsParsed(c, y, n, toks, i, end);
      case Bin(l, op, r) => ComparisonIsParsed(l, op, r, toks, i, end);
      case List(es) =>
        ElementsAreParsed(es, [], RBRACKET, toks, i + 1, end - 1);
        assert [] + es == es;
        ListRule(toks, i, Listed(es, end - 1, []));
      case Call(f, args) =>
        ElementsAreParsed(args, [], RPAREN, toks, i + 2, end - 1);
        assert [] + args == args;
        CallRule(toks, i, f, Listed(args, end - 1, []));
      case _ =>
    }
  }

  lemma {:induction false} CondIsParsed(c: Expr, y: Expr, n: Expr, toks: seq<Token>, i: nat, end: nat)
    requires Derived(Cond(c, y, n), 0, toks, i, end)
    ensures Ternary(toks, i) == Parsed(Cond(c, y, n), end, [])
    decreases Cond(c, y, n), 0, 0
  {
    var q, colon := CondSteps(c, y, n, toks, i, end);
    DerivationIsParsed(c, 1, toks, i, q);
    DerivationIsParsed(y, 0, toks, q + 1, colon);
    DerivationIsParsed(n, 0, toks, colon + 1, end);
    TernaryRule(toks, i, Parsed(c, q, []), Parsed(y, colon, []), Parsed(n, end, []));
  }

  lemma CondSteps(c: Expr, y: Expr, n: Expr, toks: seq<Token>, i: nat, end: nat) returns (q: nat, colon: nat)
    requires Derived(Cond(c, y, n), 0, toks, i, end)
    ensures Derived(c, 1, toks, i, q) && At(toks, q) == QUESTION
    ensures Derived(y, 0, toks, q + 1, colon) && At(toks, colon) == COLON
    ensures Derived(n, 0, toks, colon + 1, end)
  {
    assert Derives(toks, i, Cond(c, y, n), end);
    q, colon :| DerivesCond(toks, i, c, y, n, q, colon, end);
  }

  lemma {:induction false} ComparisonIsParsed(l: Expr, op: Op, r: Expr, toks: seq<Token>, i: nat, end: nat)
    requires LevelOf(Bin(l, op, r)) == 3 && Derived(Bin(l, op, r), 3, toks, i, end)
    ensures Equality(toks, i) == Parsed(Bin(l, op, r), end, [])
    decreases Bin(l, op, r), 0, 0
  {
    assert Derives(toks, i, Bin(l, op, r), end);
    var at: nat :| DerivesBin(toks, i, l, op, r, at, end);
    DerivationIsParsed(l, 4, toks, i, at);
    DerivationIsParsed(r, 4, toks, at + 1, end);
    EqualityRule(toks, i, Parsed(l, at, []), op, Parsed(r, end, []));
  }

  /** As the left operand of a left-associative level: e is what the loop has when it gets to end. */
  lemma {:induction false} LeftDerivation(e: Expr, level: nat, toks: seq<Token>, i: nat, end: nat)
    requires LeftAssociative(level) && Expressible(e, level) && Derives(toks, i, e, end)
    requires Follows(e, level + 1, At(toks, end))
    ensures Parse(toks, i, level) == Loop(toks, Parsed(e, end, []), level)
    decreases e, 5 - level, 1
  {
    if level == LevelOf(e) {
      BinDerivation(e.left, e.op, e.right, level, toks, i, end);
    } else {
      AboveLevel(e, level);
      DerivationIsParsed(e, level + 1, toks, i, end);
      LoopStarts(toks, i, level);
    }
  }

  lemma {:induction false} BinDerivation(l: Expr, op: Op, r: Expr, level: nat, toks: seq<Token>, i: nat, end: nat)
    requires LeftAssociative(level) && LevelOf(Bin(l, op, r)) == level && Expressible(Bin(l, op, r), level)
    requires Derives(toks, i, Bin(l, op, r), end) && Follows(Bin(l, op, r), level + 1, At(toks, end))
    ensures Parse(toks, i, level) == Loop(toks, Parsed(Bin(l, op, r), end, []), level)
    decreases Bin(l, op, r), 5 - level, 0
  {
    var at: nat :| DerivesBin(toks, i, l, op, r, at, end);
    LeftDerivation(l, level, toks, i, at);
    DerivationIsParsed(r, level + 1, toks, at + 1, end);
    LoopTurns(toks, Parsed(l, at, []), op, Parsed(r, end, []), level);
  }

  /** A token that starts an expression, a comma or a closing token extends nothing. */
  lemma InertFollows(e: Expr, t: Token)
    requires Starts(t) || t.COMMA? || t.RBRACKET? || t.RPAREN?
    ensures Follows(e, 0, t)
  {
  }

  lemma {:induction false} ElementsAreParsed(es: seq<Expr>, done: seq<Expr>, close: Token, toks: seq<Token>, i: nat,
      end: nat)
    requires (close.RBRACKET? || close.RPAREN?) && At(toks, end) == close
    requires AllExpressible(es) && DerivesAll(toks, i, es, end)
    ensures Elements(toks, Listed(done, i, []), close) == Listed(done + es, end, [])
    decreases es, 0, 0
  {
    if es == [] {
      assert done + es == done;
    } else {
      var mid: nat, next: nat :| DerivesFirst(toks, i, es, mid, next, end);
      DerivationStarts(toks, i, es[0], mid);
      NextStarts(toks, next, es[1..], end);
      InertFollows(es[0], At(toks, mid));
      DerivationIsParsed(es[0], 0, toks, i, mid);
      OneElement(toks, done, close, es[0], es[1..], i, mid, next, end);
      ElementsAreParsed(es[1..], done + [es[0]], close, toks, next, end);
      FirstThenRest(done, es);
    }
  }

  lemma NextStarts(toks: seq<Token>, i: nat, es: seq<Expr>, end: nat)
    requires DerivesAll(toks, i, es, end)
    ensures if es == [] then end == i else Starts(At(toks, i))
  {
    if es != [] {
      var mid: nat, next: nat :| DerivesFirst(toks, i, es, mid, next, end);
      DerivationStarts(toks, i, es[0], mid);
    }
  }

  /** The loop takes the comma if there is one. */
  lemma OneElement(toks: seq<Token>, done: seq<Expr>, close: Token, e: Expr, rest: seq<Expr>, i: nat, mid: nat,
      next: nat, end: nat)
    requires (close.RBRACKET? || close.RPAREN?) && At(toks, end) == close && Starts(At(toks, i))
    requires Ternary(toks, i) == Parsed(e, mid, []) && AfterElement(toks, mid, next)
    requires if rest == [] then end == next else Starts(At(toks, next))
    ensures Elements(toks, Listed(done, i, []), close) == Elements(toks, Listed(done + [e], next, []), close)
  {
    assert Listed(done, i, []).errs + Parsed(e, mid, []).errs == [];
  }

  // ---- What is parsed without error derives, and every error has its reason ----

  /** What each error says about the token it points at. */
  predicate Real(toks: seq<Token>, err: ParseError) {
    match err
    case UnexpectedToken(k) => !Starts(At(toks, k))
    case MissingColon(k) => !At(toks, k).COLON?
    case MissingKey(k) => !At(toks, k).STRING?
    case MissingParen(k) => !At(toks, k).RPAREN?
    case UnterminatedList(k) => At(toks, k).LBRACKET?
  }

  predicate AllReal(toks: seq<Token>, errs: seq<ParseError>) {
    forall k :: 0 <= k < |errs| ==> Real(toks, errs[k])
  }

  ghost predicate Sound(toks: seq<Token>, i: nat, p: Parsed, level: nat) {
    && AllReal(toks, p.errs)
    && (p.errs == [] ==> Derives(toks, i, p.e, p.next) && Follows(p.e, level, At(toks, p.next)))
  }

  lemma SoundBelow(toks: seq<Token>, i: nat, p: Parsed, level: nat)
    requires level < 5 && Sound(toks, i, p, level + 1) && NoOperator(At(toks, p.next), level)
    ensures Sound(toks, i, p, level)
  {
  }

  lemma {:induction false} TernaryIsSound(toks: seq<Token>, i: nat)
    ensures Sound(toks, i, Ternary(toks, i), 0)
    decreases Remaining(toks, i), 10
  {
    OrIsSound(toks, i);
    var c := LogicalOr(toks, i);
    if At(toks, c.next).QUESTION? {
      TernaryIsSound(toks, c.next + 1);
      var y := Ternary(toks, c.next + 1);
      if At(toks, y.next).COLON? {
        TernaryIsSound(toks, y.next + 1);
        CondIsSound(toks, i, c, y, Ternary(toks, y.next + 1));
      }
    } else {
      SoundBelow(toks, i, c, 0);
    }
  }

  lemma CondIsSound(toks: seq<Token>, i: nat, c: Parsed, y: Parsed, n: Parsed)
    requires Sound(toks, i, c, 1) && At(toks, c.next) == QUESTION
    requires Sound(toks, c.next + 1, y, 0) && At(toks, y.next) == COLON
    requires Sound(toks, y.next + 1, n, 0)
    ensures Sound(toks, i, Parsed(Cond(c.e, y.e, n.e), n.next, c.errs + y.errs + n.errs), 0)
  {
    if c.errs + y.errs + n.errs == [] {
      assert DerivesCond(toks, i, c.e, y.e, n.e, c.next, y.next, n.next);
    }
  }

  /** A join is what its two sides and the operator between them derive. */
  lemma JoinIsSound(toks: seq<Token>, i: nat, l: Parsed, op: Op, r: Parsed, level: nat)
    requires LevelOf(Bin(l.e, op, r.e)) == level && Sound(toks, i, l, level + 1)
    requires At(toks, l.next) == OpToken(op) && Sound(toks, l.next + 1, r, level + 1)
    ensures Sound(toks, i, Join(l, op, r), level + 1)
    ensures op.Eq? || op.Neq? ==> Sound(toks, i, Join(l, op, r), level)
  {
    if l.errs + r.errs == [] {
      assert DerivesBin(toks, i, l.e, op, r.e, l.next, r.next);
    }
  }

  lemma {:induction false} OrIsSound(toks: seq<Token>, i: nat)
    ensures Sound(toks, i, LogicalOr(toks, i), 1)
    decreases Remaining(toks, i), 9
  {
    AndIsSound(toks, i);
    OrRestIsSound(toks, i, LogicalAnd(toks, i));
  }

  lemma {:induction false} OrRestIsSound(toks: seq<Token>, i: nat, left: Parsed)
    requires Sound(toks, i, left, 2)
    ensures Sound(toks, i, OrRest(toks, left), 1)
    decreases Remaining(toks, left.next), 8
  {
    if At(toks, left.next).PIPEPIPE? {
      AndIsSound(toks, left.next + 1);
      JoinIsSound(toks, i, left, Or, LogicalAnd(toks, left.next + 1), 1);
      OrRestIsSound(toks, i, Join(left, Or, LogicalAnd(toks, left.next + 1)));
    } else {
      SoundBelow(toks, i, left, 1);
    }
  }

  lemma {:induction false} AndIsSound(toks: seq<Token>, i: nat)
    ensures Sound(toks, i, LogicalAnd(toks, i), 2)
    decreases Remaining(toks, i), 7
  {
    EqualityIsSound(toks, i);
    AndRestIsSound(toks, i, Equality(toks, i));
  }

  lemma {:induction false} AndRestIsSound(toks: seq<Token>, i: nat, left: Parsed)
    requires Sound(toks, i, left, 3)
    ensures Sound(toks, i, AndRest(toks, left), 2)
    decreases Remaining(toks, left.next), 6
  {
    if At(toks, left.next).AMPAMP? {
      EqualityIsSound(toks, left.next + 1);
      JoinIsSound(toks, i, left, And, Equality(toks, left.next + 1), 2);
      AndRestIsSound(toks, i, Join(left, And, Equality(toks, left.next + 1)));
    } else {
      SoundBelow(toks, i, left, 2);
    }
  }

  lemma {:induction false} EqualityIsSound(toks: seq<Token>, i: nat)
    ensures Sound(toks, i, Equality(toks, i), 3)
    decreases Remaining(toks, i), 5
  {
    ConcatIsSound(toks, i);
    var l := Concat(toks, i);
    var t := At(toks, l.next);
    if t.EQEQ? || t.BANGEQ? {
      ConcatIsSound(toks, l.next + 1);
      JoinIsSound(toks, i, l, if t.BANGEQ? then Neq else Eq, Concat(toks, l.next + 1), 3);
    } else {
      SoundBelow(toks, i, l, 3);
    }
  }

  lemma {:induction false} ConcatIsSound(toks: seq<Token>, i: nat)
    ensures Sound(toks, i, Concat(toks, i), 4)
    decreases Remaining(toks, i), 4
  {
    PrimaryIsSound(toks, i);
    ConcatRestIsSound(toks, i, Primary(toks, i));
  }

  lemma {:induction false} ConcatRestIsSound(toks: seq<Token>, i: nat, left: Parsed)
    requires Sound(toks, i, left, 5)
    ensures Sound(toks, i, ConcatRest(toks, left), 4)
    decreases Remaining(toks, left.next), 3
  {
    if At(toks, left.next).PLUS? {
      PrimaryIsSound(toks, left.next + 1);
      JoinIsSound(toks, i, left, Add, Primary(toks, left.next + 1), 4);
      ConcatRestIsSound(toks, i, Join(left, Add, Primary(toks, left.next + 1)));
    } else {
      SoundBelow(toks, i, left, 4);
    }
  }

  lemma {:induction false} PrimaryIsSound(toks: seq<Token>, i: nat)
    ensures Sound(toks, i, Primary(toks, i), 5)
    decreases Remaining(toks, i), 2
  {
    match At(toks, i)
    case LBRACKET => ListIsSound(toks, i);
    case IDENT(x) =>
      if At(toks, i + 1).LPAREN? {
        if x == "secret" { SecretIsSound(toks, i); } else { CallIsSound(toks, x, i); }
      }
    case _ =>
  }

  lemma SecretIsSound(toks: seq<Token>, i: nat)
    requires At(toks, i) == IDENT("secret") && At(toks, i + 1) == LPAREN
    ensures Sound(toks, i, Primary(toks, i), 5)
  {
    assert Primary(toks, i) == SecretRef(toks, i);
  }

  lemma {:induction false} CallIsSound(toks: seq<Token>, f: string, i: nat)
    requires f != "secret" && At(toks, i) == IDENT(f) && At(toks, i + 1) == LPAREN
    ensures Sound(toks, i, Primary(toks, i), 5)
    decreases Remaining(toks, i), 1
  {
    var l := Elements(toks, Listed([], i + 2, []), RPAREN);
    ElementsAreSound(toks, i + 2, Listed([], i + 2, []), RPAREN);
    assert Primary(toks, i) == FunctionCall(toks, f, i);
  }

  lemma {:induction false} ListIsSound(toks: seq<Token>, i: nat)
    requires At(toks, i) == LBRACKET
    ensures Sound(toks, i, Primary(toks, i), 5)
    decreases Remaining(toks, i), 1
  {
    var l := Elements(toks, Listed([], i + 1, []), RBRACKET);
    ElementsAreSound(toks, i + 1, Listed([], i + 1, []), RBRACKET);
    assert Primary(toks, i) == ListLiteral(toks, i);
    ListedIsSound(toks, i, l);
  }

  lemma ListedIsSound(toks: seq<Token>, i: nat, l: Listed)
    requires At(toks, i) == LBRACKET && l.at > i && SoundSoFar(toks, i + 1, l)
    ensures Sound(toks, i, Parsed(List(l.es), l.at + 1,
                                  l.errs + if At(toks, l.at).RBRACKET? then [] else [UnterminatedList(i)]), 5)
  {
    if At(toks, l.at).RBRACKET? {
      assert l.errs + [] == l.errs;
    } else {
      assert Real(toks, UnterminatedList(i));
    }
  }

  ghost predicate SoundSoFar(toks: seq<Token>, start: nat, l: Listed) {
    AllReal(toks, l.errs) && (l.errs == [] ==> DerivesAll(toks, start, l.es, l.at))
  }

  lemma {:induction false} ElementsAreSound(toks: seq<Token>, start: nat, sofar: Listed, close: Token)
    requires SoundSoFar(toks, start, sofar)
    ensures SoundSoFar(toks, start, Elements(toks, sofar, close))
    decreases Remaining(toks, sofar.at), 11
  {
    if At(toks, sofar.at) != close && !At(toks, sofar.at).EOF? {
      TernaryIsSound(toks, sofar.at);
      var p := Ternary(toks, sofar.at);
      var next := if At(toks, p.next).COMMA? then p.next + 1 else p.next;
      if sofar.errs + p.errs == [] {
        OneMoreDerives(toks, start, sofar.es, p.e, sofar.at, p.next, next);
      }
      ElementsAreSound(toks, start, Listed(sofar.es + [p.e], next, sofar.errs + p.errs), close);
    }
  }

  lemma {:induction false} OneMoreDerives(toks: seq<Token>, i: nat, es: seq<Expr>, e: Expr, at: nat, mid: nat,
      next: nat)
    requires DerivesAll(toks, i, es, at) && Derives(toks, at, e, mid) && AfterElement(toks, mid, next)
    ensures DerivesAll(toks, i, es + [e], next)
    decreases |es|
  {
    if es == [] {
      assert [e][1..] == [] && [] + [e] == [e];
      assert DerivesFirst(toks, i, [e], mid, next, next);
    } else {
      var m: nat, n: nat :| DerivesFirst(toks, i, es, m, n, at);
      OneMoreDerives(toks, n, es[1..], e, at, mid, next);
      assert (es + [e])[1..] == es[1..] + [e];
      assert DerivesFirst(toks, i, es + [e], m, n, next);
    }
  }

  // ---- Both together ----

  /** Nothing is reported exactly where the tokens derive a tree that the token behind it does not
      extend, and then that tree is the result; every error there is has its reason. */
  lemma NoErrorIffDerived(toks: seq<Token>, i: nat)
    ensures Ternary(toks, i).errs == [] <==> exists e, end: nat :: Derived(e, 0, toks, i, end)
    ensures forall e, end: nat :: Derived(e, 0, toks, i, end) ==> Ternary(toks, i) == Parsed(e, end, [])
    ensures AllReal(toks, Ternary(toks, i).errs)
  {
    var p := Ternary(toks, i);
    TernaryIsSound(toks, i);
    TernaryIsExpressible(toks, i);
    assert p.errs == [] ==> Derived(p.e, 0, toks, i, p.next);
    forall e, end: nat | Derived(e, 0, toks, i, end) ensures p == Parsed(e, end, []) {
      DerivationIsParsed(e, 0, toks, i, end);
    }
  }
}
