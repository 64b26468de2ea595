/** What compile-time evaluation and the type checker compute, as rules that name no evaluator:
    a table for the operators, and one relation each for values, failures and types. */
module EvalRules {
  import opened Wrappers
  import opened Expr
  import opened Types

  // ---- The rules ----

  /** The operators on values: what a and b give, if anything. */
  predicate Yields(op: Op, a: Expr, b: Expr, v: Expr) {
    match op
    case Add => a.Str? && b.Str? && v == Str(a.s + b.s)
    case And => a.Bool? && b.Bool? && v == Bool(a == Bool(true) && b == Bool(true))
    case Or => a.Bool? && b.Bool? && v == Bool(a == Bool(true) || b == Bool(true))
    case Eq => v == Bool(Comparable(a, b) && a == b)
    case Neq => v == Bool(Comparable(a, b) && a != b)
  }

  /** Two strings or two booleans; for anything else both comparisons are false. */
  predicate Comparable(a: Expr, b: Expr) {
    (a.Str? && b.Str?) || (a.Bool? && b.Bool?)
  }

  ghost predicate Evaluates(e: Expr, v: Expr, lets: Lets, fuel: nat)
    decreases fuel, e
  {
    match e
    case List(es) =>
      v.List? && |v.elems| == |es| && forall i :: 0 <= i < |es| ==> Evaluates(es[i], v.elems[i], lets, fuel)
    case Ident(x) => x in lets && fuel > 0 && Evaluates(lets[x], v, lets, fuel - 1)
    case Bin(l, op, r) =>
      exists a, b :: Evaluates(l, a, lets, fuel) && Evaluates(r, b, lets, fuel) && Yields(op, a, b, v)
    case Cond(c, y, n) =>
      || (Evaluates(c, Bool(true), lets, fuel) && Evaluates(y, v, lets, fuel))
      || (Evaluates(c, Bool(false), lets, fuel) && Evaluates(n, v, lets, fuel))
    case Call(_, _) => false
    case _ => v == e
  }

  ghost predicate BinEvaluates(l: Expr, op: Op, r: Expr, a: Expr, b: Expr, v: Expr, lets: Lets, fuel: nat)
  {
    Evaluates(l, a, lets, fuel) && Evaluates(r, b, lets, fuel) && Yields(op, a, b, v)
  }

  ghost predicate HasValue(e: Expr, lets: Lets, fuel: nat) {
    exists v :: Evaluates(e, v, lets, fuel)
  }

  /** The failure met first, from left to right; the branch not chosen is never asked. */
  ghost predicate Fails(e: Expr, x: EvalError, lets: Lets, fuel: nat)
    decreases fuel, e
  {
    match e
    case List(es) => exists i :: 0 <= i < |es| && Fails(es[i], x, lets, fuel) && AllHaveValues(es[..i], lets, fuel)
    case Ident(name) =>
      if name !in lets then x == Unresolved(name)
      else if fuel == 0 then x == Diverges
      else Fails(lets[name], x, lets, fuel - 1)
    case Bin(l, op, r) =>
      || Fails(l, x, lets, fuel)
      || (HasValue(l, lets, fuel) && Fails(r, x, lets, fuel))
      || exists a, b :: BinRefused(l, op, r, a, b, x, lets, fuel)
    case Cond(c, y, n) =>
      || Fails(c, x, lets, fuel)
      || (Evaluates(c, Bool(true), lets, fuel) && Fails(y, x, lets, fuel))
      || (Evaluates(c, Bool(false), lets, fuel) && Fails(n, x, lets, fuel))
      || (x == CondNotBool && exists v :: Evaluates(c, v, lets, fuel) && !v.Bool?)
    case Call(_, _) => x == Unsupported
    case _ => false
  }

  ghost predicate BinRefused(l: Expr, op: Op, r: Expr, a: Expr, b: Expr, x: EvalError, lets: Lets, fuel: nat) {
    Evaluates(l, a, lets, fuel) && Evaluates(r, b, lets, fuel) && Refused(op, a, b, x)
  }

  ghost predicate AllHaveValues(es: seq<Expr>, lets: Lets, fuel: nat) {
    forall i :: 0 <= i < |es| ==> HasValue(es[i], lets, fuel)
  }

  predicate Refused(op: Op, a: Expr, b: Expr, x: EvalError) {
    match op
    case Add => x == NotStrings && !(a.Str? && b.Str?)
    case And => x == NotBools && !(a.Bool? && b.Bool?)
    case Or => x == NotBools && !(a.Bool? && b.Bool?)
    case _ => false
  }

  ghost predicate Typed(e: Expr, t: Type, lets: Lets, fuel: nat)
    decreases fuel, e
  {
    match e
    case Str(_) => t == TString
    case Bool(_) => t == TBool
    case Secret(_) => t == TString
    case List(es) => t == TList && forall i :: 0 <= i < |es| ==> Typed(es[i], TString, lets, fuel)
    case Ident(x) => x in lets && fuel > 0 && Typed(lets[x], t, lets, fuel - 1)
    case Bin(l, op, r) =>
      if op.Add? then t == TString && Typed(l, TString, lets, fuel) && Typed(r, TString, lets, fuel)
      else
        && t == TBool
        && ((Typed(l, TBool, lets, fuel) && Typed(r, TBool, lets, fuel))
            || ((op.Eq? || op.Neq?) && Typed(l, TString, lets, fuel) && Typed(r, TString, lets, fuel)))
    case Cond(c, y, n) => Typed(c, TBool, lets, fuel) && Typed(y, t, lets, fuel) && Typed(n, t, lets, fuel)
    case Num(_) => false
    case Call(_, _) => false
  }

  // ---- The evaluator and the checker compute them ----

  ghost predicate FollowsRules(e: Expr, lets: Lets, fuel: nat) {
    && (forall v :: Evaluates(e, v, lets, fuel) <==> Eval(e, lets, fuel) == Ok(v))
    && (forall x :: Fails(e, x, lets, fuel) <==> Eval(e, lets, fuel) == Err(x))
  }

  /** Evaluation is exactly what the rules say: the same values, and the same failure. */
  lemma {:induction false} EvalFollowsRules(e: Expr, lets: Lets, fuel: nat)
    ensures FollowsRules(e, lets, fuel)
    decreases fuel, e
  {
    match e
    case List(es) =>
      forall i | 0 <= i < |es| ensures FollowsRules(es[i], lets, fuel) { EvalFollowsRules(es[i], lets, fuel); }
      ListFollowsRules(es, lets, fuel);
    case Ident(x) => if x in lets && fuel > 0 { EvalFollowsRules(lets[x], lets, fuel - 1); }
    case Bin(l, op, r) =>
      EvalFollowsRules(l, lets, fuel);
      EvalFollowsRules(r, lets, fuel);
      BinFollowsRules(l, op, r, lets, fuel);
    case Cond(c, y, n) =>
      EvalFollowsRules(c, lets, fuel);
      EvalFollowsRules(y, lets, fuel);
      EvalFollowsRules(n, lets, fuel);
      CondFollowsRules(c, y, n, lets, fuel);
    case _ =>
  }

  lemma BinFollowsRules(l: Expr, op: Op, r: Expr, lets: Lets, fuel: nat)
    requires FollowsRules(l, lets, fuel) && FollowsRules(r, lets, fuel)
    ensures FollowsRules(Bin(l, op, r), lets, fuel)
  {
    var e := Bin(l, op, r);
    var v, w := Eval(l, lets, fuel), Eval(r, lets, fuel);
    if v.Ok? && w.Ok? { TableIsApplied(op, v.value, w.value); }
    forall u ensures Evaluates(e, u, lets, fuel) <==> Eval(e, lets, fuel) == Ok(u) {
      BinValue(l, op, r, u, lets, fuel);
    }
    forall x ensures Fails(e, x, lets, fuel) <==> Eval(e, lets, fuel) == Err(x) {
      BinFailure(l, op, r, x, lets, fuel);
    }
  }

  lemma BinValue(l: Expr, op: Op, r: Expr, u: Expr, lets: Lets, fuel: nat)
    requires FollowsRules(l, lets, fuel) && FollowsRules(r, lets, fuel)
    ensures Evaluates(Bin(l, op, r), u, lets, fuel) <==> Eval(Bin(l, op, r), lets, fuel) == Ok(u)
  {
    YieldingPair(l, op, r, u, lets, fuel);
    EvaluatesBin(l, op, r, u, lets, fuel);
  }

  lemma EvaluatesBin(l: Expr, op: Op, r: Expr, u: Expr, lets: Lets, fuel: nat)
    ensures Evaluates(Bin(l, op, r), u, lets, fuel) <==> exists a, b :: BinEvaluates(l, op, r, a, b, u, lets, fuel)
  {
    if a, b :| BinEvaluates(l, op, r, a, b, u, lets, fuel) {
      assert Yields(op, a, b, u);
    }
    if Evaluates(Bin(l, op, r), u, lets, fuel) {
      var a, b :| Evaluates(l, a, lets, fuel) && Evaluates(r, b, lets, fuel) && Yields(op, a, b, u);
      assert BinEvaluates(l, op, r, a, b, u, lets, fuel);
    }
  }

  lemma YieldingPair(l: Expr, op: Op, r: Expr, u: Expr, lets: Lets, fuel: nat)
    requires FollowsRules(l, lets, fuel) && FollowsRules(r, lets, fuel)
    ensures var v, w := Eval(l, lets, fuel), Eval(r, lets, fuel);
            (exists a, b :: BinEvaluates(l, op, r, a, b, u, lets, fuel))
            <==> v.Ok? && w.Ok? && ApplyOp(op, v.value, w.value) == Ok(u)
  {
    var v, w := Eval(l, lets, fuel), Eval(r, lets, fuel);
    if v.Ok? && w.Ok? {
      TableIsApplied(op, v.value, w.value);
      assert BinEvaluates(l, op, r, v.value, w.value, u, lets, fuel) <==> Yields(op, v.value, w.value, u);
    }
  }

  lemma BinFailure(l: Expr, op: Op, r: Expr, x: EvalError, lets: Lets, fuel: nat)
    requires FollowsRules(l, lets, fuel) && FollowsRules(r, lets, fuel)
    ensures Fails(Bin(l, op, r), x, lets, fuel) <==> Eval(Bin(l, op, r), lets, fuel) == Err(x)
  {
    HasValueIffOk(l, lets, fuel);
    RefusedPair(l, op, r, x, lets, fuel);
    FailsBin(l, op, r, x, lets, fuel);
  }

  lemma FailsBin(l: Expr, op: Op, r: Expr, x: EvalError, lets: Lets, fuel: nat)
    ensures Fails(Bin(l, op, r), x, lets, fuel) <==>
      || Fails(l, x, lets, fuel) || (HasValue(l, lets, fuel) && Fails(r, x, lets, fuel))
      || exists a, b :: BinRefused(l, op, r, a, b, x, lets, fuel)
  {
  }

  lemma RefusedPair(l: Expr, op: Op, r: Expr, x: EvalError, lets: Lets, fuel: nat)
    requires FollowsRules(l, lets, fuel) && FollowsRules(r, lets, fuel)
    ensures var v, w := Eval(l, lets, fuel), Eval(r, lets, fuel);
            (exists a, b :: BinRefused(l, op, r, a, b, x, lets, fuel))
            <==> v.Ok? && w.Ok? && ApplyOp(op, v.value, w.value) == Err(x)
  {
    var v, w := Eval(l, lets, fuel), Eval(r, lets, fuel);
    if v.Ok? && w.Ok? {
      TableIsApplied(op, v.value, w.value);
      assert BinRefused(l, op, r, v.value, w.value, x, lets, fuel) <==> Refused(op, v.value, w.value, x);
    }
  }

  lemma HasValueIffOk(e: Expr, lets: Lets, fuel: nat)
    requires FollowsRules(e, lets, fuel)
    ensures HasValue(e, lets, fuel) <==> Eval(e, lets, fuel).Ok?
  {
    if Eval(e, lets, fuel).Ok? { assert Evaluates(e, Eval(e, lets, fuel).value, lets, fuel); }
  }

  lemma TableIsApplied(op: Op, a: Expr, b: Expr)
    ensures forall v :: Yields(op, a, b, v) <==> ApplyOp(op, a, b) == Ok(v)
    ensures forall x :: Refused(op, a, b, x) <==> ApplyOp(op, a, b) == Err(x)
  {
  }

  lemma CondFollowsRules(c: Expr, y: Expr, n: Expr, lets: Lets, fuel: nat)
    requires FollowsRules(c, lets, fuel) && FollowsRules(y, lets, fuel) && FollowsRules(n, lets, fuel)
    ensures FollowsRules(Cond(c, y, n), lets, fuel)
  {
  }

  ghost predicate ValuesOf(es: seq<Expr>, vs: seq<Expr>, lets: Lets, fuel: nat) {
    |vs| == |es| && forall i :: 0 <= i < |es| ==> Evaluates(es[i], vs[i], lets, fuel)
  }

  ghost predicate FirstFailure(es: seq<Expr>, i: nat, x: EvalError, lets: Lets, fuel: nat) {
    i < |es| && Fails(es[i], x, lets, fuel) && AllHaveValues(es[..i], lets, fuel)
  }

  lemma ListFollowsRules(es: seq<Expr>, lets: Lets, fuel: nat)
    requires forall i :: 0 <= i < |es| ==> FollowsRules(es[i], lets, fuel)
    ensures FollowsRules(List(es), lets, fuel)
  {
    ElementsFollowRules(es, lets, fuel);
    forall v ensures Evaluates(List(es), v, lets, fuel) <==> Eval(List(es), lets, fuel) == Ok(v) {
      ListValue(es, v, lets, fuel);
    }
    forall x ensures Fails(List(es), x, lets, fuel) <==> Eval(List(es), lets, fuel) == Err(x) {
      ListFailure(es, x, lets, fuel);
    }
  }

  lemma ListValue(es: seq<Expr>, v: Expr, lets: Lets, fuel: nat)
    ensures Evaluates(List(es), v, lets, fuel) <==> v.List? && ValuesOf(es, v.elems, lets, fuel)
  {
  }

  lemma ListFailure(es: seq<Expr>, x: EvalError, lets: Lets, fuel: nat)
    ensures Fails(List(es), x, lets, fuel) <==> exists i: nat :: FirstFailure(es, i, x, lets, fuel)
  {
    if Fails(List(es), x, lets, fuel) {
      var i :| 0 <= i < |es| && Fails(es[i], x, lets, fuel) && AllHaveValues(es[..i], lets, fuel);
      assert FirstFailure(es, i, x, lets, fuel);
    }
    if i: nat :| FirstFailure(es, i, x, lets, fuel) {
      assert Fails(es[i], x, lets, fuel);
    }
  }

  lemma {:induction false} ElementsFollowRules(es: seq<Expr>, lets: Lets, fuel: nat)
    requires forall i :: 0 <= i < |es| ==> FollowsRules(es[i], lets, fuel)
    ensures forall vs :: ValuesOf(es, vs, lets, fuel) <==> EvalAll(es, lets, fuel) == Ok(vs)
    ensures forall x :: (exists i: nat :: FirstFailure(es, i, x, lets, fuel)) <==> EvalAll(es, lets, fuel) == Err(x)
    decreases |es|
  {
    if es != [] {
      ElementsFollowRules(es[1..], lets, fuel);
      HasValueIffOk(es[0], lets, fuel);
      forall vs ensures ValuesOf(es, vs, lets, fuel) <==> EvalAll(es, lets, fuel) == Ok(vs) {
        ValuesCons(es, vs, lets, fuel);
        PrependIs(Eval(es[0], lets, fuel), EvalAll(es[1..], lets, fuel), vs);
      }
      forall x ensures (exists i: nat :: FirstFailure(es, i, x, lets, fuel)) <==> EvalAll(es, lets, fuel) == Err(x) {
        FailureCons(es, x, lets, fuel);
      }
    }
  }

  lemma PrependIs(v: Value, rest: Result<seq<Expr>, EvalError>, vs: seq<Expr>)
    ensures Prepend(v, rest) == Ok(vs) <==> vs != [] && v == Ok(vs[0]) && rest == Ok(vs[1..])
  {
    if vs != [] { assert vs == [vs[0]] + vs[1..]; }
    if v.Ok? && rest.Ok? { assert ([v.value] + rest.value)[1..] == rest.value; }
  }

  lemma ValuesCons(es: seq<Expr>, vs: seq<Expr>, lets: Lets, fuel: nat)
    requires es != []
    ensures ValuesOf(es, vs, lets, fuel)
      <==> vs != [] && Evaluates(es[0], vs[0], lets, fuel) && ValuesOf(es[1..], vs[1..], lets, fuel)
  {
    if vs != [] && Evaluates(es[0], vs[0], lets, fuel) && ValuesOf(es[1..], vs[1..], lets, fuel) {
      forall i | 0 <= i < |es| ensures Evaluates(es[i], vs[i], lets, fuel) {
        if i > 0 { assert es[i] == es[1..][i - 1] && vs[i] == vs[1..][i - 1]; }
      }
    }
  }

  lemma FailureCons(es: seq<Expr>, x: EvalError, lets: Lets, fuel: nat)
    requires es != []
    ensures (exists i: nat :: FirstFailure(es, i, x, lets, fuel)) <==>
      || Fails(es[0], x, lets, fuel)
      || (HasValue(es[0], lets, fuel) && exists i: nat :: FirstFailure(es[1..], i, x, lets, fuel))
  {
    if i: nat :| FirstFailure(es, i, x, lets, fuel) {
      if i > 0 {
        assert es[..i][0] == es[0] && es[..i][1..] == es[1..][..i - 1];
        assert FirstFailure(es[1..], i - 1, x, lets, fuel);
      }
    }
    if Fails(es[0], x, lets, fuel) { assert FirstFailure(es, 0, x, lets, fuel); }
    if i: nat :| HasValue(es[0], lets, fuel) && FirstFailure(es[1..], i, x, lets, fuel) {
      assert es[..i + 1] == [es[0]] + es[1..][..i];
      assert FirstFailure(es, i + 1, x, lets, fuel);
    }
  }

  /** Type checking is exactly what the rules say. */
  lemma {:induction false} TypeOfFollowsRules(e: Expr, t: Type, lets: Lets, fuel: nat)
    ensures Typed(e, t, lets, fuel) <==> TypeOf(e, lets, fuel) == Ok(t)
    decreases fuel, e
  {
    match e
    case List(es) => ElementsType(es, lets, fuel);
    case Ident(x) => if x in lets && fuel > 0 { TypeOfFollowsRules(lets[x], t, lets, fuel - 1); }
    case Bin(l, op, r) =>
      TypeOfFollowsRules(l, TString, lets, fuel);
      TypeOfFollowsRules(l, TBool, lets, fuel);
      TypeOfFollowsRules(r, TString, lets, fuel);
      TypeOfFollowsRules(r, TBool, lets, fuel);
    case Cond(c, y, n) =>
      TypeOfFollowsRules(c, TBool, lets, fuel);
      TypeOfFollowsRules(y, t, lets, fuel);
      TypeOfFollowsRules(n, t, lets, fuel);
    case _ =>
  }

  lemma {:induction false} ElementsType(es: seq<Expr>, lets: Lets, fuel: nat)
    ensures TypeOfElems(es, lets, fuel) == Ok(TList)
        <==> forall i :: 0 <= i < |es| ==> Typed(es[i], TString, lets, fuel)
    ensures TypeOfElems(es, lets, fuel).Ok? ==> TypeOfElems(es, lets, fuel).value == TList
    decreases fuel, es
  {
    if es != [] {
      TypeOfFollowsRules(es[0], TString, lets, fuel);
      ElementsType(es[1..], lets, fuel);
      assert forall i :: 0 < i < |es| ==> es[i] == es[1..][i - 1];
    }
  }

  // ---- Comparing a secret ----

  /** A comparison that types and evaluates on both sides: == and != are each other's opposite
      exactly when neither side stands for a secret; with one, both answer false. */
  lemma ComparisonsOppose(l: Expr, r: Expr, lets: Lets, fuel: nat)
    requires TypeOf(Bin(l, Eq, r), lets, fuel).Ok? && Eval(l, lets, fuel).Ok? && Eval(r, lets, fuel).Ok?
    ensures var secret := StandsForSecret(l, lets, fuel) || StandsForSecret(r, lets, fuel);
            && Eval(Bin(l, Eq, r), lets, fuel) == Ok(Bool(!secret && Eval(l, lets, fuel) == Eval(r, lets, fuel)))
            && Eval(Bin(l, Neq, r), lets, fuel) == Ok(Bool(!secret && Eval(l, lets, fuel) != Eval(r, lets, fuel)))
  {
    SecretConcatenation(l, lets, fuel);
    SecretConcatenation(r, lets, fuel);
    TypeSoundness(l, lets, fuel);
    TypeSoundness(r, lets, fuel);
  }

  /** So a secret compared even with itself is neither equal nor different. */
  lemma SecretIsNotItself(k: string, lets: Lets, fuel: nat)
    ensures Eval(Bin(Secret(k), Eq, Secret(k)), lets, fuel) == Ok(Bool(false))
    ensures Eval(Bin(Secret(k), Neq, Secret(k)), lets, fuel) == Ok(Bool(false))
  {
    ComparisonsOppose(Secret(k), Secret(k), lets, fuel);
  }

  // ---- The text of a number ----

  /** The number a decimal numeral stands for. */
  function Reads(s: string): nat {
    if s == [] then 0 else Reads(s[..|s| - 1]) * 10 + DigitOf(s[|s| - 1])
  }

  function DigitOf(c: char): nat {
    if '0' <= c <= '9' then (c - '0') as nat else 0
  }

  predicate IsNumeral(s: string) {
    s != [] && (forall i :: 0 <= i < |s| ==> '0' <= s[i] <= '9') && (s[0] == '0' ==> |s| == 1)
  }

  lemma {:induction false} DigitsRead(n: nat)
    ensures IsNumeral(Digits(n)) && Reads(Digits(n)) == n && (n > 0 ==> Digits(n)[0] != '0')
  {
    if n >= 10 {
      var rest := n / 10;
      var s, c := Digits(rest), "0123456789"[n % 10];
      DigitsRead(rest);
      DigitChar(n % 10, c);
      AppendDigit(s, c);
      assert Digits(n) == s + [c];
    } else {
      DigitChar(n, "0123456789"[n]);
      assert Digits(n)[..0] == [];
    }
  }

  lemma DigitChar(d: nat, c: char)
    requires d < 10 && c == "0123456789"[d]
    ensures '0' <= c <= '9' && DigitOf(c) == d && (d > 0 ==> c != '0')
  {
  }

  lemma AppendDigit(s: string, c: char)
    ensures Reads(s + [c]) == Reads(s) * 10 + DigitOf(c)
  {
    assert (s + [c])[..|s|] == s;
  }

  /** A number joined to text is its numeral, with a minus sign if it is negative. */
  lemma NumberText(n: int, s: string, lets: Lets, fuel: nat) returns (numeral: string)
    ensures IsNumeral(numeral) && Reads(numeral) == if n < 0 then -n else n
    ensures Lower(Bin(Str(s), Add, Num(n)), lets, fuel) == Ok(VStr(s + ((if n < 0 then "-" else "") + numeral)))
  {
    numeral := Numeral(n);
    JoinedNumber(n, s, lets, fuel);
  }

  lemma Numeral(n: int) returns (numeral: string)
    ensures IsNumeral(numeral) && Reads(numeral) == if n < 0 then -n else n
    ensures Format(VNum(n)) == (if n < 0 then "-" else "") + numeral
  {
    var m: nat := if n < 0 then -n else n;
    numeral := Digits(m);
    DigitsRead(m);
    FormatNumber(n, m);
    assert "" + numeral == numeral;
  }

  lemma FormatNumber(n: int, m: nat)
    requires m == if n < 0 then -n else n
    ensures Format(VNum(n)) == if n < 0 then "-" + Digits(m) else Digits(m)
  {
  }

  lemma JoinedNumber(n: int, s: string, lets: Lets, fuel: nat)
    ensures Lower(Bin(Str(s), Add, Num(n)), lets, fuel) == Ok(VStr(s + Format(VNum(n))))
  {
  }

  /** A boolean joined to text is its keyword. */
  lemma BooleanText(b: bool, s: string, lets: Lets, fuel: nat)
    ensures Lower(Bin(Str(s), Add, Bool(b)), lets, fuel) == Ok(VStr(s + if b then "true" else "false"))
  {
  }

  /** A list joined to text is its elements' texts in brackets, one space between each two. */
  lemma {:induction false} ListText(vs: seq<Val>, v: Val)
    ensures FormatAll([v]) == Format(v)
    ensures vs != [] ==> FormatAll(vs + [v]) == FormatAll(vs) + " " + Format(v)
    decreases |vs|
  {
    if |vs| == 1 {
      assert (vs + [v])[1..] == [v] && vs == [vs[0]];
    } else if |vs| > 1 {
      ListText(vs[1..], v);
      assert (vs + [v])[1..] == vs[1..] + [v];
      Reassociate(Format(vs[0]), FormatAll(vs[1..]), Format(v));
    }
  }

  lemma Reassociate(a: string, b: string, c: string)
    ensures a + " " + (b + " " + c) == a + " " + b + " " + c
  {
  }
}
