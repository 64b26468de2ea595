/** Type soundness of the v0.3 expression language, and constant folding of lets
    (internal/devlang/validate.go) with the lowering of folded expressions (lower.go). */
module Types {
  import opened Wrappers
  import opened Digraph
  import opened Expr

  /** A typed expression evaluates to a literal of its type. The one internal error left is
      '+' applied to a secret, which the type checker calls a string; without secrets there is none. */
  ghost predicate Sound(e: Expr, lets: Lets, fuel: nat) {
    TypeOf(e, lets, fuel).Ok? ==>
      var r := Eval(e, lets, fuel);
      && (r.Ok? ==> HasType(r.value, TypeOf(e, lets, fuel).value))
      && (r.Err? ==> r.error.NotStrings?)
      && (SecretFree(e) && SecretFreeLets(lets) ==> r.Ok? && SecretFree(r.value))
  }

  lemma {:induction false} TypeSoundness(e: Expr, lets: Lets, fuel: nat)
    ensures Sound(e, lets, fuel)
    decreases fuel, e
  {
    match e
    case List(es) => ElementsSound(es, lets, fuel);
    case Ident(x) => if x in lets && fuel > 0 { TypeSoundness(lets[x], lets, fuel - 1); }
    case Bin(l, op, r) =>
      TypeSoundness(l, lets, fuel);
      TypeSoundness(r, lets, fuel);
    case Cond(c, y, n) =>
      TypeSoundness(c, lets, fuel);
      TypeSoundness(y, lets, fuel);
      TypeSoundness(n, lets, fuel);
    case _ =>
  }

  ghost predicate AllStrings(vs: seq<Expr>) {
    forall i :: 0 <= i < |vs| ==> vs[i].Str? || vs[i].Secret?
  }

  lemma {:induction false} ElementsSound(es: seq<Expr>, lets: Lets, fuel: nat)
    ensures TypeOfElems(es, lets, fuel).Ok? ==>
      var r := EvalAll(es, lets, fuel);
      && TypeOfElems(es, lets, fuel).value == TList
      && (r.Ok? ==> AllStrings(r.value)) && (r.Err? ==> r.error.NotStrings?)
      && ((forall i :: 0 <= i < |es| ==> SecretFree(es[i])) && SecretFreeLets(lets) ==>
            r.Ok? && forall i :: 0 <= i < |r.value| ==> SecretFree(r.value[i]))
    decreases fuel, es
  {
    if es != [] {
      TypeSoundness(es[0], lets, fuel);
      ElementsSound(es[1..], lets, fuel);
    }
  }

  /** Whether evaluation picks the first branch. */
  ghost predicate Chosen(c: Expr, lets: Lets, fuel: nat) {
    Eval(c, lets, fuel) == Ok(Bool(true))
  }

  /** The expression stands for a secret: one itself, or through names and chosen branches. */
  ghost predicate StandsForSecret(e: Expr, lets: Lets, fuel: nat)
    decreases fuel, e
  {
    match e
    case Secret(_) => true
    case Ident(x) => x in lets && fuel > 0 && StandsForSecret(lets[x], lets, fuel - 1)
    case Cond(c, y, n) =>
      if Chosen(c, lets, fuel) then StandsForSecret(y, lets, fuel) else StandsForSecret(n, lets, fuel)
    case _ => false
  }

  /** A '+' that evaluation meets has an operand that stands for a secret. */
  ghost predicate JoinsSecret(e: Expr, lets: Lets, fuel: nat)
    decreases fuel, e
  {
    match e
    case List(es) => exists i :: 0 <= i < |es| && JoinsSecret(es[i], lets, fuel)
    case Ident(x) => x in lets && fuel > 0 && JoinsSecret(lets[x], lets, fuel - 1)
    case Bin(l, op, r) =>
      || JoinsSecret(l, lets, fuel) || JoinsSecret(r, lets, fuel)
      || (op.Add? && (StandsForSecret(l, lets, fuel) || StandsForSecret(r, lets, fuel)))
    case Cond(c, y, n) =>
      || JoinsSecret(c, lets, fuel)
      || if Chosen(c, lets, fuel) then JoinsSecret(y, lets, fuel) else JoinsSecret(n, lets, fuel)
    case _ => false
  }

  /** Exactly where a well-typed expression fails: where it joins a secret. */
  lemma {:induction false} SecretConcatenation(e: Expr, lets: Lets, fuel: nat)
    requires TypeOf(e, lets, fuel).Ok?
    ensures Eval(e, lets, fuel).Err? <==> JoinsSecret(e, lets, fuel)
    ensures Eval(e, lets, fuel).Ok? ==> (Eval(e, lets, fuel).value.Secret? <==> StandsForSecret(e, lets, fuel))
    decreases fuel, e
  {
    TypeSoundness(e, lets, fuel);
    match e
    case List(es) => ElementsJoinSecret(es, lets, fuel);
    case Ident(x) => SecretConcatenation(lets[x], lets, fuel - 1);
    case Bin(l, op, r) =>
      SecretConcatenation(l, lets, fuel);
      SecretConcatenation(r, lets, fuel);
      TypeSoundness(l, lets, fuel);
      TypeSoundness(r, lets, fuel);
    case Cond(c, y, n) =>
      SecretConcatenation(c, lets, fuel);
      SecretConcatenation(y, lets, fuel);
      SecretConcatenation(n, lets, fuel);
      TypeSoundness(c, lets, fuel);
    case _ =>
  }

  lemma {:induction false} ElementsJoinSecret(es: seq<Expr>, lets: Lets, fuel: nat)
    requires TypeOfElems(es, lets, fuel).Ok?
    ensures EvalAll(es, lets, fuel).Err? <==> exists i :: 0 <= i < |es| && JoinsSecret(es[i], lets, fuel)
    decreases fuel, es
  {
    if es != [] {
      SecretConcatenation(es[0], lets, fuel);
      ElementsJoinSecret(es[1..], lets, fuel);
      assert forall i :: 0 < i < |es| ==> es[i] == es[1..][i - 1];
    }
  }

  // ---- Let lookups terminate when lets are acyclic ----

  function Idents(e: Expr): seq<Id>
    decreases e
  {
    match e
    case Ident(x) => [x]
    case List(es) => IdentsAll(es)
    case Bin(l, _, r) => Idents(l) + Idents(r)
    case Cond(c, y, n) => Idents(c) + Idents(y) + Idents(n)
    case Call(_, args) => IdentsAll(args)
    case _ => []
  }

  function IdentsAll(es: seq<Expr>): seq<Id>
    decreases es
  {
    if es == [] then [] else Idents(es[0]) + IdentsAll(es[1..])
  }

  ghost function LetGraph(lets: Lets): Graph {
    map x | x in lets :: Idents(lets[x])
  }

  ghost predicate Below(names: seq<Id>, rank: map<Id, nat>, lets: Lets, bound: nat) {
    forall x :: x in names && x in lets ==> x in rank && rank[x] < bound
  }

  lemma {:induction false} RankedEvalReturns(e: Expr, lets: Lets, rank: map<Id, nat>, fuel: nat)
    requires Below(Idents(e), rank, lets, fuel)
    requires forall x :: x in lets && x in rank ==> Below(Idents(lets[x]), rank, lets, rank[x])
    ensures Eval(e, lets, fuel) != Err(Diverges) && TypeOf(e, lets, fuel) != Err(NeverReturns)
    decreases fuel, e
  {
    match e
    case List(es) => RankedEvalAllReturns(es, lets, rank, fuel);
    case Ident(x) =>
      assert x in Idents(e);
      if x in lets { RankedEvalReturns(lets[x], lets, rank, fuel - 1); }
    case Bin(l, op, r) =>
      RankedEvalReturns(l, lets, rank, fuel);
      RankedEvalReturns(r, lets, rank, fuel);
    case Cond(c, y, n) =>
      RankedEvalReturns(c, lets, rank, fuel);
      RankedEvalReturns(y, lets, rank, fuel);
      RankedEvalReturns(n, lets, rank, fuel);
    case _ =>
  }

  lemma {:induction false} RankedEvalAllReturns(es: seq<Expr>, lets: Lets, rank: map<Id, nat>, fuel: nat)
    requires Below(IdentsAll(es), rank, lets, fuel)
    requires forall x :: x in lets && x in rank ==> Below(Idents(lets[x]), rank, lets, rank[x])
    ensures EvalAll(es, lets, fuel) != Err(Diverges) && TypeOfElems(es, lets, fuel) != Err(NeverReturns)
    decreases fuel, es
  {
    if es != [] {
      RankedEvalReturns(es[0], lets, rank, fuel);
      RankedEvalAllReturns(es[1..], lets, rank, fuel);
    }
  }

  /** With acyclic lets some lookup depth suffices for every expression at once. */
  lemma AcyclicLetsReturn(lets: Lets) returns (enough: nat)
    requires Acyclic(LetGraph(lets))
    ensures forall e :: Eval(e, lets, enough) != Err(Diverges) && TypeOf(e, lets, enough) != Err(NeverReturns)
  {
    var g := LetGraph(lets);
    var rank := AcyclicHasRanking(g);
    enough := Largest(rank) + 1;
    forall x, y | x in lets && y in Idents(lets[x]) && y in lets ensures y in rank && rank[y] < rank[x] {
      assert y in Succ(g, x);
    }
    forall e ensures Eval(e, lets, enough) != Err(Diverges) && TypeOf(e, lets, enough) != Err(NeverReturns) {
      assert forall x :: x in lets ==> x in Nodes(g);
      RankedEvalReturns(e, lets, rank, enough);
    }
  }

  /** What types, types every name it mentions, one lookup down. */
  lemma {:induction false} TypedNamesType(e: Expr, lets: Lets, fuel: nat, x: Id)
    requires TypeOf(e, lets, fuel).Ok? && x in Idents(e)
    ensures x in lets && fuel > 0 && TypeOf(lets[x], lets, fuel - 1).Ok?
    decreases e
  {
    match e
    case List(es) => TypedElementsType(es, lets, fuel, x);
    case Bin(l, _, r) => TypedNamesType(if x in Idents(l) then l else r, lets, fuel, x);
    case Cond(c, y, n) => TypedNamesType(if x in Idents(c) then c else if x in Idents(y) then y else n, lets, fuel, x);
    case _ =>
  }

  lemma {:induction false} TypedElementsType(es: seq<Expr>, lets: Lets, fuel: nat, x: Id)
    requires TypeOfElems(es, lets, fuel).Ok? && x in IdentsAll(es)
    ensures x in lets && fuel > 0 && TypeOf(lets[x], lets, fuel - 1).Ok?
    decreases es
  {
    if x in Idents(es[0]) { TypedNamesType(es[0], lets, fuel, x); } else { TypedElementsType(es[1..], lets, fuel, x); }
  }

  /** A let that needs itself, directly or through others, never types. */
  lemma {:induction false} CyclicLetNeverTypes(x: Id, lets: Lets, fuel: nat)
    requires x in lets && Reaches(LetGraph(lets), x, x)
    ensures TypeOf(lets[x], lets, fuel).Err?
    decreases fuel
  {
    var y := CycleNext(LetGraph(lets), x);
    if TypeOf(lets[x], lets, fuel).Ok? {
      TypedNamesType(lets[x], lets, fuel, y);
      CyclicLetNeverTypes(y, lets, fuel - 1);
    }
  }

  /** So lets that all type are acyclic, and AcyclicLetsReturn applies to them. */
  lemma TypedLetsAreAcyclic(lets: Lets, fuel: nat)
    requires Untyped(lets, fuel) == {}
    ensures Acyclic(LetGraph(lets))
  {
    if !Acyclic(LetGraph(lets)) {
      CyclicHasLoop(LetGraph(lets));
      var x :| Reaches(LetGraph(lets), x, x);
      var y := CycleNext(LetGraph(lets), x);
      assert x !in Untyped(lets, fuel);
      CyclicLetNeverTypes(x, lets, fuel);
    }
  }

  ghost function Untyped(lets: Lets, fuel: nat): set<string> {
    set x | x in lets && TypeOf(lets[x], lets, fuel).Err?
  }

  // ---- Folding ----

  ghost predicate IsFolded(lets: Lets, folded: Lets, fuel: nat) {
    folded.Keys == lets.Keys && forall x :: x in lets ==> Eval(lets[x], lets, fuel) == Ok(folded[x])
  }

  ghost function Failing(lets: Lets, fuel: nat): set<string> {
    set x | x in lets && Eval(lets[x], lets, fuel).Err?
  }

  /** Step 3 and 4 of ValidateV0_3: type check every let, then evaluate every let. The second step
      runs only when the first reports nothing. */
  method FoldLets(lets: Lets, fuel: nat) returns (folded: Lets, bad: set<string>)
    ensures bad == if Untyped(lets, fuel) != {} then Untyped(lets, fuel) else Failing(lets, fuel)
    ensures bad == {} ==> IsFolded(lets, folded, fuel) && Acyclic(LetGraph(lets))
    ensures SecretFreeLets(lets) ==> bad == Untyped(lets, fuel)
  {
    forall x | x in lets ensures Sound(lets[x], lets, fuel) { TypeSoundness(lets[x], lets, fuel); }
    folded, bad := map[], {};
    var todo := lets.Keys;
    while todo != {}
      invariant todo <= lets.Keys
      invariant forall x :: x in bad <==> x in lets && x !in todo && TypeOf(lets[x], lets, fuel).Err?
    {
      var x :| x in todo;
      if TypeOf(lets[x], lets, fuel).Err? { bad := bad + {x}; }
      todo := todo - {x};
    }
    assert bad == Untyped(lets, fuel);
    if bad != {} { return; }
    todo := lets.Keys;
    while todo != {}
      invariant todo <= lets.Keys
      invariant forall x :: x in bad <==> x in lets && x !in todo && Eval(lets[x], lets, fuel).Err?
      invariant forall x :: x in folded <==> x in lets && x !in todo && Eval(lets[x], lets, fuel).Ok?
      invariant forall x :: x in folded ==> Eval(lets[x], lets, fuel) == Ok(folded[x])
    {
      var x :| x in todo;
      var v := Eval(lets[x], lets, fuel);
      if v.Ok? { folded := folded[x := v.value]; } else { bad := bad + {x}; }
      todo := todo - {x};
    }
    assert bad == Failing(lets, fuel);
    TypedLetsAreAcyclic(lets, fuel);
  }

  /** Folding is invisible: any expression at all evaluates to the same value, or fails the
      same way, against folded lets as against the lets themselves. */
  lemma {:induction false} FoldingPreservesEval(e: Expr, lets: Lets, folded: Lets, fuel: nat, more: nat)
    requires IsFolded(lets, folded, fuel)
    ensures Eval(e, folded, more + 1) == Eval(e, lets, fuel + 1)
    decreases e
  {
    match e
    case List(es) => FoldingPreservesEvalAll(es, lets, folded, fuel, more);
    case Ident(x) =>
      if x in lets {
        EvalGivesValue(lets[x], lets, fuel);
        ValueEvaluates(folded[x], folded, more);
      }
    case Bin(l, op, r) =>
      FoldingPreservesEval(l, lets, folded, fuel, more);
      FoldingPreservesEval(r, lets, folded, fuel, more);
    case Cond(c, y, n) =>
      FoldingPreservesEval(c, lets, folded, fuel, more);
      FoldingPreservesEval(y, lets, folded, fuel, more);
      FoldingPreservesEval(n, lets, folded, fuel, more);
    case _ =>
  }

  lemma {:induction false} FoldingPreservesEvalAll(es: seq<Expr>, lets: Lets, folded: Lets, fuel: nat, more: nat)
    requires IsFolded(lets, folded, fuel)
    ensures EvalAll(es, folded, more + 1) == EvalAll(es, lets, fuel + 1)
    decreases es
  {
    if es != [] {
      FoldingPreservesEval(es[0], lets, folded, fuel, more);
      FoldingPreservesEvalAll(es[1..], lets, folded, fuel, more);
    }
  }

  // ---- lower.go: lowerExprV0_2 ----

  /** A lowered value; `secret` is the object that stands for a secret reference. */
  datatype Val = VStr(s: string) | VBool(b: bool) | VNum(n: int) | VList(vs: seq<Val>) | VSecret(key: string)

  datatype LowerError = NotAValue(name: string) | UnsupportedNode | LowerDiverges

  type Lowered = Result<Val, LowerError>

  function Lower(e: Expr, lets: Lets, fuel: nat): Lowered
    decreases fuel, e
  {
    match e
    case Str(s) => Ok(VStr(s))
    case Bool(b) => Ok(VBool(b))
    case Num(n) => Ok(VNum(n))
    case Secret(k) => Ok(VSecret(k))
    case List(es) =>
      (match LowerAll(es, lets, fuel) case Err(x) => Err(x) case Ok(vs) => Ok(VList(vs)))
    case Ident(x) =>
      if x !in lets then Err(NotAValue(x))
      else if fuel == 0 then Err(LowerDiverges)
      else Lower(lets[x], lets, fuel - 1)
    case Bin(l, op, r) =>
      var a, b := Lower(l, lets, fuel), Lower(r, lets, fuel);
      if a.Err? then a else if b.Err? then b
      else if op.Add? then Ok(VStr(Format(a.value) + Format(b.value))) else Err(UnsupportedNode)
    case Cond(_, _, _) => Err(UnsupportedNode)
    case Call(_, _) => Err(UnsupportedNode)
  }

  function LowerAll(es: seq<Expr>, lets: Lets, fuel: nat): Result<seq<Val>, LowerError>
    decreases fuel, es
  {
    if es == [] then Ok([])
    else
      match Lower(es[0], lets, fuel)
      case Err(x) => Err(x)
      case Ok(v) =>
        match LowerAll(es[1..], lets, fuel)
        case Err(x) => Err(x)
        case Ok(vs) => Ok([v] + vs)
  }

  /** fmt's %v verb on the lowered value. */
  function Format(v: Val): string {
    match v
    case VStr(s) => s
    case VBool(b) => if b then "true" else "false"
    case VNum(n) => if n < 0 then "-" + Digits(-n) else Digits(n)
    case VList(vs) => "[" + FormatAll(vs) + "]"
    case VSecret(k) => "map[__secret__:" + k + "]"
  }

  function FormatAll(vs: seq<Val>): string {
    if vs == [] then ""
    else if |vs| == 1 then Format(vs[0])
    else Format(vs[0]) + " " + FormatAll(vs[1..])
  }

  function Digits(n: nat): string {
    if n < 10 then ["0123456789"[n]] else Digits(n / 10) + ["0123456789"[n % 10]]
  }

  function ToVal(v: Expr): Val {
    match v
    case Str(s) => VStr(s)
    case Bool(b) => VBool(b)
    case Num(n) => VNum(n)
    case Secret(k) => VSecret(k)
    case List(es) => VList(ToVals(es))
    case _ => VStr("")
  }

  function ToVals(es: seq<Expr>): seq<Val> {
    if es == [] then [] else [ToVal(es[0])] + ToVals(es[1..])
  }

  /** The constructs lowering knows: literals, identifiers, '+' and lists of these. */
  predicate Lowerable(e: Expr) {
    match e
    case Bin(l, op, r) => op.Add? && Lowerable(l) && Lowerable(r)
    case List(es) => forall i :: 0 <= i < |es| ==> Lowerable(es[i])
    case Cond(_, _, _) => false
    case Call(_, _) => false
    case _ => true
  }

  ghost predicate ValuesOnly(lets: Lets) {
    forall x :: x in lets ==> IsValue(lets[x])
  }

  lemma {:induction false} ValueLowers(v: Expr, lets: Lets, fuel: nat)
    requires IsValue(v)
    ensures Lower(v, lets, fuel) == Ok(ToVal(v)) && Lowerable(v)
    decreases v
  {
    if v.List? { ValuesLower(v.elems, lets, fuel); }
  }

  lemma {:induction false} ValuesLower(vs: seq<Expr>, lets: Lets, fuel: nat)
    requires forall i :: 0 <= i < |vs| ==> IsValue(vs[i])
    ensures LowerAll(vs, lets, fuel) == Ok(ToVals(vs)) && forall i :: 0 <= i < |vs| ==> Lowerable(vs[i])
    decreases vs
  {
    if vs != [] {
      ValueLowers(vs[0], lets, fuel);
      ValuesLower(vs[1..], lets, fuel);
      assert forall i :: 0 < i < |vs| ==> vs[i] == vs[1..][i - 1];
    }
  }

  /** What a '+' may be given on folded lets so that evaluating it succeeds. */
  predicate YieldsString(e: Expr, lets: Lets) {
    match e
    case Str(_) => true
    case Ident(x) => x in lets && lets[x].Str?
    case Bin(_, op, _) => op.Add?
    case _ => false
  }

  /** Every '+' of e joins two strings. */
  predicate JoinsStrings(e: Expr, lets: Lets) {
    match e
    case List(es) => forall i :: 0 <= i < |es| ==> JoinsStrings(es[i], lets)
    case Bin(l, op, r) => YieldsString(l, lets) && YieldsString(r, lets) && JoinsStrings(l, lets)
      && JoinsStrings(r, lets)
    case _ => true
  }

  predicate Resolves(names: seq<Id>, lets: Lets) {
    forall i :: 0 <= i < |names| ==> names[i] in lets
  }

  /** How lowering an expression compares with evaluating it: alike if it joins strings only;
      otherwise evaluation refuses it and the text in `low` is nothing the expression means. */
  ghost predicate Compares(low: Lowered, v: Value, strings: bool) {
    low.Ok? ==> if strings then v.Ok? && low == Ok(ToVal(v.value)) else v == Err(NotStrings)
  }

  /** On folded lets an expression is lowered exactly when its names resolve and it stays within
      what lowering knows, and then to its value exactly when every '+' joins strings. Comparisons,
      logic and conditionals survive validation but not lowering. */
  lemma {:induction false} LoweringAgreesWithEval(e: Expr, lets: Lets, fuel: nat)
    requires ValuesOnly(lets) && fuel > 0
    ensures Lower(e, lets, fuel).Ok? <==> Lowerable(e) && Resolves(Idents(e), lets)
    ensures Compares(Lower(e, lets, fuel), Eval(e, lets, fuel), JoinsStrings(e, lets))
    ensures Lowerable(e) && Eval(e, lets, fuel).Ok? ==> Lower(e, lets, fuel).Ok?
    decreases e, 1
  {
    match e
    case List(es) => LoweringAllAgrees(es, lets, fuel);
    case Ident(x) =>
      assert Idents(e) == [x] && Idents(e)[0] == x;
      if x in lets {
        ValueLowers(lets[x], lets, fuel - 1);
        ValueEvaluates(lets[x], lets, fuel - 1);
      }
    case Bin(l, op, r) => LoweringBinAgrees(l, op, r, lets, fuel);
    case _ =>
  }

  /** With the names resolved, an operand is a string exactly when it looks like one. */
  lemma StringOperand(e: Expr, lets: Lets, fuel: nat)
    requires ValuesOnly(lets) && fuel > 0 && Lowerable(e) && Eval(e, lets, fuel).Ok?
    ensures Eval(e, lets, fuel).value.Str? <==> YieldsString(e, lets)
  {
    if e.Ident? { ValueEvaluates(lets[e.name], lets, fuel - 1); }
  }

  lemma {:induction false} LoweringBinAgrees(l: Expr, op: Op, r: Expr, lets: Lets, fuel: nat)
    requires ValuesOnly(lets) && fuel > 0
    ensures var e := Bin(l, op, r);
            && (Lower(e, lets, fuel).Ok? <==> Lowerable(e) && Resolves(Idents(e), lets))
            && Compares(Lower(e, lets, fuel), Eval(e, lets, fuel), JoinsStrings(e, lets))
            && (Lowerable(e) && Eval(e, lets, fuel).Ok? ==> Lower(e, lets, fuel).Ok?)
    decreases Bin(l, op, r), 0
  {
    LoweringAgreesWithEval(l, lets, fuel);
    LoweringAgreesWithEval(r, lets, fuel);
    ResolvesBoth(Idents(l), Idents(r), lets);
    if Lowerable(l) && Eval(l, lets, fuel).Ok? { StringOperand(l, lets, fuel); }
    if Lowerable(r) && Eval(r, lets, fuel).Ok? { StringOperand(r, lets, fuel); }
    var a, b := Lower(l, lets, fuel), Lower(r, lets, fuel);
    if a.Ok? && b.Ok? && op.Add? {
      JoinCompares(a.value, b.value, Eval(l, lets, fuel), Eval(r, lets, fuel), YieldsString(l, lets),
          YieldsString(r, lets), JoinsStrings(l, lets), JoinsStrings(r, lets));
    }
  }

  lemma JoinCompares(a: Val, b: Val, v: Value, w: Value, stringA: bool, stringB: bool, joinsA: bool, joinsB: bool)
    requires Compares(Ok(a), v, joinsA) && Compares(Ok(b), w, joinsB)
    requires v.Ok? ==> (v.value.Str? <==> stringA)
    requires w.Ok? ==> (w.value.Str? <==> stringB)
    ensures Compares(Ok(VStr(Format(a) + Format(b))), EvalBin(v, Add, w), stringA && stringB && joinsA && joinsB)
  {
  }

  lemma ResolvesBoth(xs: seq<Id>, ys: seq<Id>, lets: Lets)
    ensures Resolves(xs + ys, lets) <==> Resolves(xs, lets) && Resolves(ys, lets)
  {
    if Resolves(xs + ys, lets) {
      assert forall i :: 0 <= i < |xs| ==> (xs + ys)[i] == xs[i];
      assert forall i :: 0 <= i < |ys| ==> (xs + ys)[|xs| + i] == ys[i];
    }
  }

  lemma {:induction false} LoweringAllAgrees(es: seq<Expr>, lets: Lets, fuel: nat)
    requires ValuesOnly(lets) && fuel > 0
    ensures var low, v := LowerAll(es, lets, fuel), EvalAll(es, lets, fuel);
            && (low.Ok? <==> (forall i :: 0 <= i < |es| ==> Lowerable(es[i])) && Resolves(IdentsAll(es), lets))
            && (low.Ok? ==>
                  if forall i :: 0 <= i < |es| ==> JoinsStrings(es[i], lets) then v.Ok? && low == Ok(ToVals(v.value))
                  else v == Err(NotStrings))
            && ((forall i :: 0 <= i < |es| ==> Lowerable(es[i])) && v.Ok? ==> low.Ok?)
    decreases es, 1
  {
    if es != [] {
      LoweringAgreesWithEval(es[0], lets, fuel);
      LoweringAllAgrees(es[1..], lets, fuel);
      ResolvesBoth(Idents(es[0]), IdentsAll(es[1..]), lets);
      AllOfCons(es, e => Lowerable(e));
      AllOfCons(es, e => JoinsStrings(e, lets));
    }
  }

  lemma AllOfCons(es: seq<Expr>, p: Expr -> bool)
    requires es != []
    ensures (forall i :: 0 <= i < |es| ==> p(es[i])) <==> p(es[0]) && forall i :: 0 <= i < |es[1..]| ==> p(es[1..][i])
  {
    assert forall i :: 0 < i < |es| ==> es[i] == es[1..][i - 1];
  }

  /** For a well-typed expression the condition is that it joins no secret. */
  lemma TypedLowering(e: Expr, lets: Lets, fuel: nat)
    requires ValuesOnly(lets) && fuel > 0 && TypeOf(e, lets, fuel).Ok?
    ensures Lower(e, lets, fuel).Ok? <==> Lowerable(e)
    ensures Lowerable(e) ==>
      Compares(Lower(e, lets, fuel), Eval(e, lets, fuel), !JoinsSecret(e, lets, fuel))
  {
    LoweringAgreesWithEval(e, lets, fuel);
    SecretConcatenation(e, lets, fuel);
    if Lowerable(e) { TypedNamesResolve(e, lets, fuel); }
  }

  lemma {:induction false} TypedNamesResolve(e: Expr, lets: Lets, fuel: nat)
    requires TypeOf(e, lets, fuel).Ok?
    ensures Resolves(Idents(e), lets)
    decreases e
  {
    match e
    case List(es) => TypedElementsResolve(es, lets, fuel);
    case Bin(l, _, r) =>
      TypedNamesResolve(l, lets, fuel);
      TypedNamesResolve(r, lets, fuel);
      ResolvesBoth(Idents(l), Idents(r), lets);
    case Cond(c, y, n) =>
      TypedNamesResolve(c, lets, fuel);
      TypedNamesResolve(y, lets, fuel);
      TypedNamesResolve(n, lets, fuel);
      ResolvesBoth(Idents(c), Idents(y), lets);
      ResolvesBoth(Idents(c) + Idents(y), Idents(n), lets);
    case _ =>
  }

  lemma {:induction false} TypedElementsResolve(es: seq<Expr>, lets: Lets, fuel: nat)
    requires TypeOfElems(es, lets, fuel).Ok?
    ensures Resolves(IdentsAll(es), lets)
    decreases es
  {
    if es != [] {
      TypedNamesResolve(es[0], lets, fuel);
      TypedElementsResolve(es[1..], lets, fuel);
      ResolvesBoth(Idents(es[0]), IdentsAll(es[1..]), lets);
    }
  }

  /** The shortfall at its smallest: text joined with a secret has a type and no value, and still
      reaches the plan, as the text of the object that stands for the secret. */
  lemma SecretLoweredAsText(s: string, key: string, lets: Lets, fuel: nat)
    ensures var e := Bin(Str(s), Add, Secret(key));
            && TypeOf(e, lets, fuel) == Ok(TString)
            && Eval(e, lets, fuel) == Err(NotStrings)
            && Lower(e, lets, fuel) == Ok(VStr(s + "map[__secret__:" + key + "]"))
  {
    assert s + ("map[__secret__:" + key + "]") == s + "map[__secret__:" + key + "]";
  }

  /** The whole constant pipeline: fold the lets, then lower an input against them. Inputs are
      neither typed nor evaluated before, so the plan holds what the unfolded program means exactly
      when every '+' joins strings. */
  lemma PipelineKeepsMeaning(e: Expr, lets: Lets, folded: Lets, fuel: nat, more: nat)
    requires IsFolded(lets, folded, fuel)
    ensures Lower(e, folded, more + 1).Ok? <==> Lowerable(e) && Resolves(Idents(e), lets)
    ensures Compares(Lower(e, folded, more + 1), Eval(e, lets, fuel + 1), JoinsStrings(e, folded))
  {
    FoldingPreservesEval(e, lets, folded, fuel, more);
    forall x | x in folded ensures IsValue(folded[x]) {
      EvalGivesValue(lets[x], lets, fuel);
    }
    LoweringAgreesWithEval(e, folded, more + 1);
  }
}
