/** internal/devlang: the expression tree, compile-time evaluation (eval.go) and the type
    checker (types.go). Both follow let bindings without a cycle check, so both take the
    number of let lookups they may nest; running out of it stands for not returning. */
module Expr {
  import opened Wrappers

  datatype Op = Add | And | Or | Eq | Neq

  datatype Expr =
    | Str(s: string)
    | Bool(b: bool)
    | Num(n: int)
    | List(elems: seq<Expr>)
    | Ident(name: string)
    | Bin(left: Expr, op: Op, right: Expr)
    | Cond(cond: Expr, yes: Expr, no: Expr)
    | Secret(key: string)
    | Call(name: string, args: seq<Expr>)

  type Lets = map<string, Expr>

  datatype EvalError = Unresolved(name: string) | NotStrings | NotBools | CondNotBool | Unsupported | Diverges

  type Value = Result<Expr, EvalError>

  function Eval(e: Expr, lets: Lets, fuel: nat): Value
    decreases fuel, e
  {
    match e
    case Str(_) => Ok(e)
    case Bool(_) => Ok(e)
    case Num(_) => Ok(e)
    case Secret(_) => Ok(e)
    case List(es) => ListOf(EvalAll(es, lets, fuel))
    case Ident(x) =>
      if x !in lets then Err(Unresolved(x))
      else if fuel == 0 then Err(Diverges)
      else Eval(lets[x], lets, fuel - 1)
    case Bin(l, op, r) => EvalBin(Eval(l, lets, fuel), op, Eval(r, lets, fuel))
    case Cond(c, y, n) => EvalCond(Eval(c, lets, fuel), Eval(y, lets, fuel), Eval(n, lets, fuel))
    case Call(_, _) => Err(Unsupported)
  }

  /** The elements in order, or the first error. */
  function EvalAll(es: seq<Expr>, lets: Lets, fuel: nat): Result<seq<Expr>, EvalError>
    decreases fuel, es
  {
    if es == [] then Ok([]) else Prepend(Eval(es[0], lets, fuel), EvalAll(es[1..], lets, fuel))
  }

  function Prepend(v: Value, vs: Result<seq<Expr>, EvalError>): Result<seq<Expr>, EvalError> {
    match v
    case Err(x) => Err(x)
    case Ok(a) => (match vs case Err(x) => Err(x) case Ok(as') => Ok([a] + as'))
  }

  function ListOf(vs: Result<seq<Expr>, EvalError>): Value {
    match vs case Err(x) => Err(x) case Ok(es) => Ok(List(es))
  }

  /** Both operands are evaluated, the left one first. */
  function EvalBin(l: Value, op: Op, r: Value): Value {
    if l.Err? then l else if r.Err? then r else ApplyOp(op, l.value, r.value)
  }

  function ApplyOp(op: Op, l: Expr, r: Expr): Value {
    match op
    case Add => if l.Str? && r.Str? then Ok(Str(l.s + r.s)) else Err(NotStrings)
    case And => if l.Bool? && r.Bool? then Ok(Bool(l.b && r.b)) else Err(NotBools)
    case Or => if l.Bool? && r.Bool? then Ok(Bool(l.b || r.b)) else Err(NotBools)
    case Eq => Ok(Bool(if l.Str? && r.Str? then l.s == r.s else l.Bool? && r.Bool? && l.b == r.b))
    case Neq => Ok(Bool(if l.Str? && r.Str? then l.s != r.s else l.Bool? && r.Bool? && l.b != r.b))
  }

  /** Only the chosen branch contributes. */
  function EvalCond(c: Value, y: Value, n: Value): Value {
    if c.Err? then c else if !c.value.Bool? then Err(CondNotBool) else if c.value.b then y else n
  }

  // ---- types.go ----

  datatype Type = TString | TBool | TList

  datatype TypeError = UnknownName(name: string) | Mismatch | Untyped | NeverReturns

  type Typing = Result<Type, TypeError>

  function TypeOf(e: Expr, lets: Lets, fuel: nat): Typing
    decreases fuel, e
  {
    match e
    case Str(_) => Ok(TString)
    case Bool(_) => Ok(TBool)
    case Secret(_) => Ok(TString)
    case Num(_) => Err(Untyped)
    case Call(_, _) => Err(Untyped)
    case List(es) => TypeOfElems(es, lets, fuel)
    case Ident(x) =>
      if x !in lets then Err(UnknownName(x))
      else if fuel == 0 then Err(NeverReturns)
      else TypeOf(lets[x], lets, fuel - 1)
    case Bin(l, op, r) => TypeOfBin(TypeOf(l, lets, fuel), op, TypeOf(r, lets, fuel))
    case Cond(c, y, n) => TypeOfCond(TypeOf(c, lets, fuel), TypeOf(y, lets, fuel), TypeOf(n, lets, fuel))
  }

  function TypeOfElems(es: seq<Expr>, lets: Lets, fuel: nat): Typing
    decreases fuel, es
  {
    if es == [] then Ok(TList)
    else
      match TypeOf(es[0], lets, fuel)
      case Err(x) => Err(x)
      case Ok(t) => if t != TString then Err(Mismatch) else TypeOfElems(es[1..], lets, fuel)
  }

  function TypeOfBin(l: Typing, op: Op, r: Typing): Typing {
    if l.Err? then l else if r.Err? then r
    else
      match op
      case Add => if l.value.TString? && r.value.TString? then Ok(TString) else Err(Mismatch)
      case And => if l.value.TBool? && r.value.TBool? then Ok(TBool) else Err(Mismatch)
      case Or => if l.value.TBool? && r.value.TBool? then Ok(TBool) else Err(Mismatch)
      case Eq => if l.value == r.value && !l.value.TList? then Ok(TBool) else Err(Mismatch)
      case Neq => if l.value == r.value && !l.value.TList? then Ok(TBool) else Err(Mismatch)
  }

  function TypeOfCond(c: Typing, y: Typing, n: Typing): Typing {
    if c.Err? then c else if !c.value.TBool? then Err(Mismatch)
    else if y.Err? then y else if n.Err? then n
    else if y.value != n.value then Err(Mismatch) else y
  }

  // ---- Values ----

  /** Fully evaluated: no identifier, operator or call left. */
  ghost predicate IsValue(e: Expr) {
    match e
    case List(es) => forall i :: 0 <= i < |es| ==> IsValue(es[i])
    case Str(_) => true
    case Bool(_) => true
    case Num(_) => true
    case Secret(_) => true
    case _ => false
  }

  ghost predicate SecretFree(e: Expr) {
    match e
    case Secret(_) => false
    case List(es) => forall i :: 0 <= i < |es| ==> SecretFree(es[i])
    case Bin(l, _, r) => SecretFree(l) && SecretFree(r)
    case Cond(c, y, n) => SecretFree(c) && SecretFree(y) && SecretFree(n)
    case Call(_, args) => forall i :: 0 <= i < |args| ==> SecretFree(args[i])
    case _ => true
  }

  ghost predicate SecretFreeLets(lets: Lets) {
    forall x :: x in lets ==> SecretFree(lets[x])
  }

  /** v is a literal of type t, a secret reference counting as a string. */
  ghost predicate HasType(v: Expr, t: Type) {
    match t
    case TString => v.Str? || v.Secret?
    case TBool => v.Bool?
    case TList => v.List? && forall i :: 0 <= i < |v.elems| ==> v.elems[i].Str? || v.elems[i].Secret?
  }

  ghost predicate AllValues(r: Result<seq<Expr>, EvalError>) {
    r.Ok? ==> forall i :: 0 <= i < |r.value| ==> IsValue(r.value[i])
  }

  lemma {:induction false} EvalGivesValue(e: Expr, lets: Lets, fuel: nat)
    ensures Eval(e, lets, fuel).Ok? ==> IsValue(Eval(e, lets, fuel).value)
    decreases fuel, e
  {
    match e
    case List(es) => EvalAllGivesValues(es, lets, fuel);
    case Ident(x) => if x in lets && fuel > 0 { EvalGivesValue(lets[x], lets, fuel - 1); }
    case Cond(c, y, n) =>
      EvalGivesValue(y, lets, fuel);
      EvalGivesValue(n, lets, fuel);
    case _ =>
  }

  lemma {:induction false} EvalAllGivesValues(es: seq<Expr>, lets: Lets, fuel: nat)
    ensures AllValues(EvalAll(es, lets, fuel))
    decreases fuel, es
  {
    if es != [] {
      EvalGivesValue(es[0], lets, fuel);
      EvalAllGivesValues(es[1..], lets, fuel);
    }
  }

  lemma {:induction false} ValueEvaluates(v: Expr, lets: Lets, fuel: nat)
    requires IsValue(v)
    ensures Eval(v, lets, fuel) == Ok(v)
    decreases v
  {
    if v.List? { ValuesEvaluate(v.elems, lets, fuel); }
  }

  lemma {:induction false} ValuesEvaluate(vs: seq<Expr>, lets: Lets, fuel: nat)
    requires forall i :: 0 <= i < |vs| ==> IsValue(vs[i])
    ensures EvalAll(vs, lets, fuel) == Ok(vs)
    decreases vs
  {
    if vs != [] {
      ValueEvaluates(vs[0], lets, fuel);
      ValuesEvaluate(vs[1..], lets, fuel);
      assert [vs[0]] + vs[1..] == vs;
    }
  }
}
