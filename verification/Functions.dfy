/** internal/devlang/lower.go: user-defined functions as macros. Expansion recurses into
    bodies without a cycle check; `depth` bounds how deep bodies may nest, and None stands
    for not returning. */
module Functions {
  import opened Wrappers
  import opened Expr

  datatype Fn = Fn(params: seq<string>, body: Expr)

  type Funcs = map<string, Fn>

  type Bindings = map<string, Expr>

  /** The arguments that have a parameter; surplus ones are not even expanded. */
  function Used<T>(params: seq<string>, args: seq<T>): seq<T> {
    if |args| <= |params| then args else args[..|params|]
  }

  /** paramEnv: arguments by position; missing ones stay unbound. */
  function Bind<T>(params: seq<string>, args: seq<T>): map<string, T>
    decreases |params|
  {
    if params == [] || args == [] then map[] else map[params[0] := args[0]] + Bind(params[1..], args[1..])
  }

  predicate ZeroArg(funcs: Funcs, x: string) {
    x in funcs && funcs[x].params == []
  }

  /** expandFunctionCalls. */
  function Expand(e: Expr, funcs: Funcs, depth: nat): Option<Expr>
    decreases 2 * depth, e
  {
    match e
    case Call(f, args) =>
      if f in funcs then
        match ExpandAll(Used(funcs[f].params, args), funcs, depth)
        case None => None
        case Some(as') => if depth == 0 then None
          else Subst(funcs[f].body, Bind(funcs[f].params, as'), funcs, depth - 1)
      else
        (match ExpandAll(args, funcs, depth) case None => None case Some(as') => Some(Call(f, as')))
    case Bin(l, op, r) => MakeBin(Expand(l, funcs, depth), op, Expand(r, funcs, depth))
    case Cond(c, y, n) => MakeCond(Expand(c, funcs, depth), Expand(y, funcs, depth), Expand(n, funcs, depth))
    case List(es) => MakeList(ExpandAll(es, funcs, depth))
    case Ident(x) =>
      if ZeroArg(funcs, x) then if depth == 0 then None else Expand(funcs[x].body, funcs, depth - 1)
      else Some(e)
    case _ => Some(e)
  }

  function ExpandAll(es: seq<Expr>, funcs: Funcs, depth: nat): Option<seq<Expr>>
    decreases 2 * depth, es
  {
    if es == [] then Some([]) else Cons(Expand(es[0], funcs, depth), ExpandAll(es[1..], funcs, depth))
  }

  /** substituteFnParamsInExpr: parameters first; a call in the body is substituted and then expanded. */
  function Subst(e: Expr, env: Bindings, funcs: Funcs, depth: nat): Option<Expr>
    decreases 2 * depth + 1, e
  {
    match e
    case Ident(x) => Some(if x in env then env[x] else e)
    case Call(f, args) =>
      (match SubstAll(args, env, funcs, depth)
       case None => None
       case Some(as') => Expand(Call(f, as'), funcs, depth))
    case Bin(l, op, r) => MakeBin(Subst(l, env, funcs, depth), op, Subst(r, env, funcs, depth))
    case Cond(c, y, n) => MakeCond(Subst(c, env, funcs, depth), Subst(y, env, funcs, depth),
      Subst(n, env, funcs, depth))
    case List(es) => MakeList(SubstAll(es, env, funcs, depth))
    case _ => Some(e)
  }

  function SubstAll(es: seq<Expr>, env: Bindings, funcs: Funcs, depth: nat): Option<seq<Expr>>
    decreases 2 * depth + 1, es
  {
    if es == [] then Some([]) else Cons(Subst(es[0], env, funcs, depth), SubstAll(es[1..], env, funcs, depth))
  }

  function Cons(a: Option<Expr>, rest: Option<seq<Expr>>): Option<seq<Expr>> {
    if a.None? || rest.None? then None else Some([a.value] + rest.value)
  }

  function MakeBin(l: Option<Expr>, op: Op, r: Option<Expr>): Option<Expr> {
    if l.None? || r.None? then None else Some(Bin(l.value, op, r.value))
  }

  function MakeCond(c: Option<Expr>, y: Option<Expr>, n: Option<Expr>): Option<Expr> {
    if c.None? || y.None? || n.None? then None else Some(Cond(c.value, y.value, n.value))
  }

  function MakeList(es: Option<seq<Expr>>): Option<Expr> {
    if es.None? then None else Some(List(es.value))
  }

  // ---- What a call means: the reference interpreter ----

  /** A program that has not been expanded. `nest` is the call depth granted to each let. */
  datatype Program = Program(lets: Lets, funcs: Funcs, nest: nat)

  /** The last place at which a name stands. */
  function LastAt(names: seq<string>, x: string): (i: nat)
    requires x in names
    ensures i < |names| && names[i] == x && forall j :: i < j < |names| ==> names[j] != x
  {
    if names[|names| - 1] == x then |names| - 1 else LastAt(names[..|names| - 1], x)
  }

  /** The names of the parameters that have an argument. */
  function Given<T>(params: seq<string>, args: seq<T>): seq<string> {
    if |args| <= |params| then params[..|args|] else params
  }

  /** Argument i belongs to parameter i; of two parameters with one name the later counts. */
  function ByPosition<T>(params: seq<string>, args: seq<T>): map<string, T> {
    map x | x in Given(params, args) :: args[LastAt(Given(params, args), x)]
  }

  /** Evaluation that performs the calls. A parameter stands for the result of its argument, so
      an argument's error matters only where the parameter is used. Let bodies see no parameters. */
  function Run(e: Expr, params: map<string, Value>, p: Program, fuel: nat, depth: nat): Value
    decreases fuel, depth, e
  {
    match e
    case Str(_) => Ok(e)
    case Bool(_) => Ok(e)
    case Num(_) => Ok(e)
    case Secret(_) => Ok(e)
    case List(es) => ListOf(Collect(RunAll(es, params, p, fuel, depth)))
    case Ident(x) =>
      if x in params then params[x]
      else if x in p.funcs && |p.funcs[x].params| == 0 then
        if depth == 0 then Err(Diverges) else Run(p.funcs[x].body, map[], p, fuel, depth - 1)
      else if x !in p.lets then Err(Unresolved(x))
      else if fuel == 0 then Err(Diverges)
      else Run(p.lets[x], map[], p, fuel - 1, p.nest)
    case Bin(l, op, r) => EvalBin(Run(l, params, p, fuel, depth), op, Run(r, params, p, fuel, depth))
    case Cond(c, y, n) => EvalCond(Run(c, params, p, fuel, depth), Run(y, params, p, fuel, depth),
        Run(n, params, p, fuel, depth))
    case Call(f, args) =>
      if f in p.funcs then
        if depth == 0 then Err(Diverges)
        else Run(p.funcs[f].body, ByPosition(p.funcs[f].params, RunAll(args, params, p, fuel, depth)), p, fuel,
            depth - 1)
      else Err(Unsupported)
  }

  /** The result of every argument, errors included. */
  function RunAll(es: seq<Expr>, params: map<string, Value>, p: Program, fuel: nat, depth: nat): seq<Value>
    decreases fuel, depth, es
  {
    if es == [] then [] else [Run(es[0], params, p, fuel, depth)] + RunAll(es[1..], params, p, fuel, depth)
  }

  function Collect(vs: seq<Value>): Result<seq<Expr>, EvalError> {
    if vs == [] then Ok([]) else Prepend(vs[0], Collect(vs[1..]))
  }

  function Evals(es: seq<Expr>, lets: Lets, fuel: nat): seq<Value> {
    if es == [] then [] else [Eval(es[0], lets, fuel)] + Evals(es[1..], lets, fuel)
  }

  lemma {:induction false} CollectEvals(es: seq<Expr>, lets: Lets, fuel: nat)
    ensures Collect(Evals(es, lets, fuel)) == EvalAll(es, lets, fuel)
  {
    if es != [] { CollectEvals(es[1..], lets, fuel); }
  }

  // ---- Clean expressions: nothing left to expand ----

  ghost predicate Clean(e: Expr, funcs: Funcs) {
    match e
    case Call(f, args) => f !in funcs && forall i :: 0 <= i < |args| ==> Clean(args[i], funcs)
    case Ident(x) => !ZeroArg(funcs, x)
    case Bin(l, _, r) => Clean(l, funcs) && Clean(r, funcs)
    case Cond(c, y, n) => Clean(c, funcs) && Clean(y, funcs) && Clean(n, funcs)
    case List(es) => forall i :: 0 <= i < |es| ==> Clean(es[i], funcs)
    case _ => true
  }

  ghost predicate AllClean(es: seq<Expr>, funcs: Funcs) {
    forall i :: 0 <= i < |es| ==> Clean(es[i], funcs)
  }

  lemma {:induction false} CleanIsFixed(e: Expr, funcs: Funcs, depth: nat)
    requires Clean(e, funcs)
    ensures Expand(e, funcs, depth) == Some(e)
    decreases e
  {
    match e
    case Call(f, args) => AllCleanIsFixed(args, funcs, depth);
    case List(es) => AllCleanIsFixed(es, funcs, depth);
    case Bin(l, _, r) =>
      CleanIsFixed(l, funcs, depth);
      CleanIsFixed(r, funcs, depth);
    case Cond(c, y, n) =>
      CleanIsFixed(c, funcs, depth);
      CleanIsFixed(y, funcs, depth);
      CleanIsFixed(n, funcs, depth);
    case _ =>
  }

  lemma {:induction false} AllCleanIsFixed(es: seq<Expr>, funcs: Funcs, depth: nat)
    requires AllClean(es, funcs)
    ensures ExpandAll(es, funcs, depth) == Some(es)
    decreases es
  {
    if es != [] {
      CleanIsFixed(es[0], funcs, depth);
      AllCleanIsFixed(es[1..], funcs, depth);
      assert [es[0]] + es[1..] == es;
    }
  }

  ghost predicate CleanBindings(env: Bindings, funcs: Funcs) {
    forall x :: x in env ==> Clean(env[x], funcs)
  }

  /** The identifiers of e that stand in no call's arguments. */
  function OuterIdents(e: Expr): seq<string> {
    match e
    case Ident(x) => [x]
    case List(es) => OuterIdentsAll(es)
    case Bin(l, _, r) => OuterIdents(l) + OuterIdents(r)
    case Cond(c, y, n) => OuterIdents(c) + OuterIdents(y) + OuterIdents(n)
    case _ => []
  }

  function OuterIdentsAll(es: seq<Expr>): seq<string> {
    if es == [] then [] else OuterIdents(es[0]) + OuterIdentsAll(es[1..])
  }

  /** No bare zero-argument name stands outside the arguments of a call. */
  ghost predicate NoLooseNames(e: Expr, funcs: Funcs) {
    forall x :: x in OuterIdents(e) ==> !ZeroArg(funcs, x)
  }

  /** The hypothesis on bodies. Inside a body a loose name is left alone; in a call's arguments
      it is expanded, because they are substituted and then expanded. */
  ghost predicate TightBodies(funcs: Funcs) {
    forall f :: f in funcs ==> NoLooseNames(funcs[f].body, funcs)
  }

  // ---- Arguments without a parameter ----

  lemma {:induction false} BindUsed<T>(params: seq<string>, args: seq<T>)
    ensures Bind(params, Used(params, args)) == Bind(params, args)
    decreases |params|
  {
    if params != [] && args != [] {
      BindUsed(params[1..], args[1..]);
      assert Used(params, args)[1..] == Used(params[1..], args[1..]);
    }
  }

  /** paramEnv binds by position. */
  lemma {:induction false} BindIsByPosition<T>(params: seq<string>, args: seq<T>)
    ensures Bind(params, args) == ByPosition(params, args)
    decreases |params|
  {
    if params == [] || args == [] {
      assert Given(params, args) == [];
    } else {
      BindIsByPosition(params[1..], args[1..]);
      assert Given(params, args) == [params[0]] + Given(params[1..], args[1..]);
      ByPositionCons(params, args, Given(params[1..], args[1..]));
    }
  }

  lemma ByPositionCons<T>(params: seq<string>, args: seq<T>, rest: seq<string>)
    requires params != [] && args != [] && rest == Given(params[1..], args[1..])
    requires Given(params, args) == [params[0]] + rest
    ensures ByPosition(params, args) == map[params[0] := args[0]] + ByPosition(params[1..], args[1..])
  {
    var all := [params[0]] + rest;
    forall x | x in all ensures LastAt(all, x) == if x in rest then LastAt(rest, x) + 1 else 0 {
      LastAtCons(params[0], rest, x);
    }
  }

  lemma LastAtCons(first: string, rest: seq<string>, x: string)
    requires x in [first] + rest
    ensures LastAt([first] + rest, x) == if x in rest then LastAt(rest, x) + 1 else 0
  {
    var all := [first] + rest;
    if x in rest { assert all[LastAt(rest, x) + 1] == x; }
    assert LastAt(all, x) > 0 ==> rest[LastAt(all, x) - 1] == x;
  }

  lemma {:induction false} RunAllUsed(params: seq<string>, args: seq<Expr>, env: map<string, Value>, p: Program,
      fuel: nat, depth: nat)
    ensures RunAll(Used(params, args), env, p, fuel, depth) == Used(params, RunAll(args, env, p, fuel, depth))
    ensures |RunAll(args, env, p, fuel, depth)| == |args|
    decreases |args|
  {
    if args != [] {
      RunAllUsed(if params == [] then [] else params[1..], args[1..], env, p, fuel, depth);
      if params != [] { assert Used(params, args)[1..] == Used(params[1..], args[1..]); }
    }
  }

  lemma {:induction false} SubstAllPrefix(args: seq<Expr>, k: nat, env: Bindings, funcs: Funcs, depth: nat)
    requires k <= |args| && SubstAll(args, env, funcs, depth).Some?
    ensures |SubstAll(args, env, funcs, depth).value| == |args|
    ensures SubstAll(args[..k], env, funcs, depth) == Some(SubstAll(args, env, funcs, depth).value[..k])
    decreases |args|
  {
    if args != [] {
      SubstAllPrefix(args[1..], if k == 0 then 0 else k - 1, env, funcs, depth);
      if k == 0 {
        assert args[..k] == [];
      } else {
        assert args[..k][1..] == args[1..][..k - 1];
        var vs := SubstAll(args, env, funcs, depth).value;
        assert vs[..k] == [vs[0]] + vs[1..][..k - 1];
      }
    }
  }

  lemma SubstAllUsed(params: seq<string>, args: seq<Expr>, env: Bindings, funcs: Funcs, depth: nat)
    requires SubstAll(args, env, funcs, depth).Some?
    ensures SubstAll(Used(params, args), env, funcs, depth)
      == Some(Used(params, SubstAll(args, env, funcs, depth).value))
    ensures |SubstAll(args, env, funcs, depth).value| == |args|
  {
    SubstAllPrefix(args, if |args| <= |params| then |args| else |params|, env, funcs, depth);
    if |args| <= |params| {
      assert args[..|args|] == args;
    }
  }

  /** Running a call is running the body on the results of the used arguments. */
  lemma RunCall(f: string, args: seq<Expr>, params: map<string, Value>, p: Program, fuel: nat, depth: nat)
    requires f in p.funcs && depth > 0
    ensures var fn := p.funcs[f];
            Run(Call(f, args), params, p, fuel, depth)
            == Run(fn.body, Bind(fn.params, RunAll(Used(fn.params, args), params, p, fuel, depth)), p, fuel, depth - 1)
  {
    RunAllUsed(p.funcs[f].params, args, params, p, fuel, depth);
    BindUsed(p.funcs[f].params, RunAll(args, params, p, fuel, depth));
    BindIsByPosition(p.funcs[f].params, RunAll(args, params, p, fuel, depth));
  }

  // ---- Expansion keeps meaning ----

  /** params holds what the arguments in env evaluate to. */
  ghost predicate Matches(env: Bindings, params: map<string, Value>, lets: Lets, fuel: nat) {
    env.Keys == params.Keys && forall x :: x in env ==> Eval(env[x], lets, fuel) == params[x]
  }

  /** Every let of the program, expanded: LowerToPlanV2_0's first loop. */
  ghost predicate ExpandedLets(p: Program, lets: Lets) {
    lets.Keys == p.lets.Keys && forall x :: x in lets ==> Expand(p.lets[x], p.funcs, p.nest) == Some(lets[x])
  }

  lemma {:induction false} BindMatches(params: seq<string>, args: seq<Expr>, lets: Lets, fuel: nat)
    ensures Matches(Bind(params, args), Bind(params, Evals(args, lets, fuel)), lets, fuel)
    decreases |params|
  {
    if params != [] && args != [] { BindMatches(params[1..], args[1..], lets, fuel); }
  }

  lemma {:induction false} BindClean(params: seq<string>, args: seq<Expr>, funcs: Funcs)
    requires AllClean(args, funcs)
    ensures CleanBindings(Bind(params, args), funcs)
    decreases |params|
  {
    if params != [] && args != [] { BindClean(params[1..], args[1..], funcs); }
  }

  /** If an expansion returned, it is clean and evaluates to v. */
  ghost predicate Means(r: Option<Expr>, v: Value, funcs: Funcs, lets: Lets, fuel: nat) {
    r.Some? ==> Clean(r.value, funcs) && Eval(r.value, lets, fuel) == v
  }

  ghost predicate AllMean(rs: Option<seq<Expr>>, vs: seq<Value>, funcs: Funcs, lets: Lets, fuel: nat) {
    rs.Some? ==> AllClean(rs.value, funcs) && Evals(rs.value, lets, fuel) == vs
  }

  lemma {:induction false} ExpandMeans(e: Expr, p: Program, lets: Lets, fuel: nat, depth: nat)
    requires TightBodies(p.funcs) && ExpandedLets(p, lets)
    ensures Means(Expand(e, p.funcs, depth), Run(e, map[], p, fuel, depth), p.funcs, lets, fuel)
    decreases fuel, 2 * depth, e, 1
  {
    match e
    case Call(f, args) => ExpandCallMeans(f, args, p, lets, fuel, depth);
    case Bin(l, op, r) =>
      ExpandMeans(l, p, lets, fuel, depth);
      ExpandMeans(r, p, lets, fuel, depth);
    case Cond(c, y, n) =>
      ExpandMeans(c, p, lets, fuel, depth);
      ExpandMeans(y, p, lets, fuel, depth);
      ExpandMeans(n, p, lets, fuel, depth);
    case List(es) =>
      ExpandAllMeans(es, p, lets, fuel, depth);
      if ExpandAll(es, p.funcs, depth).Some? { CollectEvals(ExpandAll(es, p.funcs, depth).value, lets, fuel); }
    case Ident(x) => ExpandIdentMeans(x, p, lets, fuel, depth);
    case _ =>
  }

  lemma {:induction false} ExpandIdentMeans(x: string, p: Program, lets: Lets, fuel: nat, depth: nat)
    requires TightBodies(p.funcs) && ExpandedLets(p, lets)
    ensures Means(Expand(Ident(x), p.funcs, depth), Run(Ident(x), map[], p, fuel, depth), p.funcs, lets, fuel)
    decreases fuel, 2 * depth, Ident(x), 0
  {
    if ZeroArg(p.funcs, x) {
      if depth > 0 { ExpandMeans(p.funcs[x].body, p, lets, fuel, depth - 1); }
    } else if x in p.lets && fuel > 0 {
      ExpandMeans(p.lets[x], p, lets, fuel - 1, p.nest);
    }
  }

  lemma {:induction false} ExpandCallMeans(f: string, args: seq<Expr>, p: Program, lets: Lets, fuel: nat, depth: nat)
    requires TightBodies(p.funcs) && ExpandedLets(p, lets)
    ensures Means(Expand(Call(f, args), p.funcs, depth), Run(Call(f, args), map[], p, fuel, depth), p.funcs, lets, fuel)
    decreases fuel, 2 * depth, Call(f, args), 0
  {
    var used := if f in p.funcs then Used(p.funcs[f].params, args) else args;
    ExpandAllMeans(used, p, lets, fuel, depth);
    var as' := ExpandAll(used, p.funcs, depth);
    if f in p.funcs && as'.Some? && depth > 0 {
      RunCall(f, args, map[], p, fuel, depth);
      BodyMeans(f, as'.value, p, lets, fuel, depth - 1);
    }
  }

  lemma {:induction false} ExpandAllMeans(es: seq<Expr>, p: Program, lets: Lets, fuel: nat, depth: nat)
    requires TightBodies(p.funcs) && ExpandedLets(p, lets)
    ensures AllMean(ExpandAll(es, p.funcs, depth), RunAll(es, map[], p, fuel, depth), p.funcs, lets, fuel)
    decreases fuel, 2 * depth, es
  {
    if es != [] {
      ExpandMeans(es[0], p, lets, fuel, depth);
      ExpandAllMeans(es[1..], p, lets, fuel, depth);
    }
  }

  /** A body on clean arguments: substitution leaves nothing to expand and means the body run on
      the arguments' results. */
  lemma {:induction false} BodyMeans(f: string, args: seq<Expr>, p: Program, lets: Lets, fuel: nat, depth: nat)
    requires TightBodies(p.funcs) && ExpandedLets(p, lets) && f in p.funcs && AllClean(args, p.funcs)
    ensures var fn := p.funcs[f];
            Means(Subst(fn.body, Bind(fn.params, args), p.funcs, depth),
                  Run(fn.body, Bind(fn.params, Evals(args, lets, fuel)), p, fuel, depth), p.funcs, lets, fuel)
    decreases fuel, 2 * depth + 1, p.funcs[f].body, 2
  {
    var fn := p.funcs[f];
    BindMatches(fn.params, args, lets, fuel);
    BindClean(fn.params, args, p.funcs);
    SubstMeans(fn.body, Bind(fn.params, args), Bind(fn.params, Evals(args, lets, fuel)), p, lets, fuel, depth);
    var r := Subst(fn.body, Bind(fn.params, args), p.funcs, depth);
    if r.Some? { CleanIsFixed(r.value, p.funcs, depth); }
  }

  /** What substitution leaves in s: clean if e has no loose name, and either way expanding it
      means running e. */
  ghost predicate SubstOk(s: Option<Expr>, e: Expr, v: Value, funcs: Funcs, lets: Lets, fuel: nat, depth: nat) {
    s.Some? ==>
      && (NoLooseNames(e, funcs) ==> Clean(s.value, funcs))
      && Means(Expand(s.value, funcs, depth), v, funcs, lets, fuel)
  }

  lemma {:induction false} SubstMeans(e: Expr, env: Bindings, params: map<string, Value>, p: Program, lets: Lets,
      fuel: nat, depth: nat)
    requires TightBodies(p.funcs) && ExpandedLets(p, lets)
    requires Matches(env, params, lets, fuel) && CleanBindings(env, p.funcs)
    ensures SubstOk(Subst(e, env, p.funcs, depth), e, Run(e, params, p, fuel, depth), p.funcs, lets, fuel, depth)
    decreases fuel, 2 * depth + 1, e, 1
  {
    match e
    case Call(f, args) => SubstCallMeans(f, args, env, params, p, lets, fuel, depth);
    case Bin(l, op, r) =>
      SubstMeans(l, env, params, p, lets, fuel, depth);
      SubstMeans(r, env, params, p, lets, fuel, depth);
      BinOk(Subst(l, env, p.funcs, depth), Subst(r, env, p.funcs, depth), l, op, r, Run(l, params, p, fuel, depth),
          Run(r, params, p, fuel, depth), p.funcs, lets, fuel, depth);
    case Cond(c, y, n) =>
      SubstMeans(c, env, params, p, lets, fuel, depth);
      SubstMeans(y, env, params, p, lets, fuel, depth);
      SubstMeans(n, env, params, p, lets, fuel, depth);
      CondOk(Subst(c, env, p.funcs, depth), Subst(y, env, p.funcs, depth), Subst(n, env, p.funcs, depth), c, y, n,
          Run(c, params, p, fuel, depth), Run(y, params, p, fuel, depth), Run(n, params, p, fuel, depth),
          p.funcs, lets, fuel, depth);
    case List(es) => SubstListMeans(es, env, params, p, lets, fuel, depth);
    case Ident(x) => SubstIdentMeans(x, env, params, p, lets, fuel, depth);
    case _ =>
  }

  lemma BinOk(sl: Option<Expr>, sr: Option<Expr>, l: Expr, op: Op, r: Expr, vl: Value, vr: Value, funcs: Funcs,
      lets: Lets, fuel: nat, depth: nat)
    requires SubstOk(sl, l, vl, funcs, lets, fuel, depth) && SubstOk(sr, r, vr, funcs, lets, fuel, depth)
    ensures SubstOk(MakeBin(sl, op, sr), Bin(l, op, r), EvalBin(vl, op, vr), funcs, lets, fuel, depth)
  {
    assert OuterIdents(Bin(l, op, r)) == OuterIdents(l) + OuterIdents(r);
    if sl.Some? && sr.Some? {
      var r' := Expand(Bin(sl.value, op, sr.value), funcs, depth);
      assert r' == MakeBin(Expand(sl.value, funcs, depth), op, Expand(sr.value, funcs, depth));
      assert Means(r', EvalBin(vl, op, vr), funcs, lets, fuel);
    }
  }

  lemma CondOk(sc: Option<Expr>, sy: Option<Expr>, sn: Option<Expr>, c: Expr, y: Expr, n: Expr, vc: Value, vy: Value,
      vn: Value, funcs: Funcs, lets: Lets, fuel: nat, depth: nat)
    requires SubstOk(sc, c, vc, funcs, lets, fuel, depth) && SubstOk(sy, y, vy, funcs, lets, fuel, depth)
    requires SubstOk(sn, n, vn, funcs, lets, fuel, depth)
    ensures SubstOk(MakeCond(sc, sy, sn), Cond(c, y, n), EvalCond(vc, vy, vn), funcs, lets, fuel, depth)
  {
    assert OuterIdents(Cond(c, y, n)) == OuterIdents(c) + OuterIdents(y) + OuterIdents(n);
    if sc.Some? && sy.Some? && sn.Some? {
      var r := Expand(Cond(sc.value, sy.value, sn.value), funcs, depth);
      assert r == MakeCond(Expand(sc.value, funcs, depth), Expand(sy.value, funcs, depth),
        Expand(sn.value, funcs, depth));
      assert Means(r, EvalCond(vc, vy, vn), funcs, lets, fuel);
    }
  }

  lemma {:induction false} SubstListMeans(es: seq<Expr>, env: Bindings, params: map<string, Value>, p: Program,
      lets: Lets, fuel: nat, depth: nat)
    requires TightBodies(p.funcs) && ExpandedLets(p, lets)
    requires Matches(env, params, lets, fuel) && CleanBindings(env, p.funcs)
    ensures SubstOk(Subst(List(es), env, p.funcs, depth), List(es), Run(List(es), params, p, fuel, depth), p.funcs,
      lets, fuel, depth)
    decreases fuel, 2 * depth + 1, List(es), 0
  {
    SubstAllMeans(es, env, params, p, lets, fuel, depth);
    var ss := SubstAll(es, env, p.funcs, depth);
    if ss.Some? && ExpandAll(ss.value, p.funcs, depth).Some? {
      CollectEvals(ExpandAll(ss.value, p.funcs, depth).value, lets, fuel);
    }
  }

  lemma {:induction false} SubstIdentMeans(x: string, env: Bindings, params: map<string, Value>, p: Program, lets: Lets,
      fuel: nat, depth: nat)
    requires TightBodies(p.funcs) && ExpandedLets(p, lets)
    requires Matches(env, params, lets, fuel) && CleanBindings(env, p.funcs)
    ensures SubstOk(Subst(Ident(x), env, p.funcs, depth), Ident(x), Run(Ident(x), params, p, fuel, depth), p.funcs,
      lets, fuel, depth)
    decreases fuel, 2 * depth + 1, Ident(x), 0
  {
    assert OuterIdents(Ident(x)) == [x];
    if x in env {
      CleanIsFixed(env[x], p.funcs, depth);
    } else {
      ExpandIdentMeans(x, p, lets, fuel, depth);
    }
  }

  /** A call in a body: its arguments are substituted, then the call is expanded, arguments included. */
  lemma {:induction false} SubstCallMeans(f: string, args: seq<Expr>, env: Bindings, params: map<string, Value>,
      p: Program, lets: Lets, fuel: nat, depth: nat)
    requires TightBodies(p.funcs) && ExpandedLets(p, lets)
    requires Matches(env, params, lets, fuel) && CleanBindings(env, p.funcs)
    ensures var e := Call(f, args);
            SubstOk(Subst(e, env, p.funcs, depth), e, Run(e, params, p, fuel, depth), p.funcs, lets, fuel, depth)
    decreases fuel, 2 * depth + 1, Call(f, args), 0
  {
    var as' := SubstAll(args, env, p.funcs, depth);
    if as'.Some? {
      var used := if f in p.funcs then Used(p.funcs[f].params, args) else args;
      SubstAllMeans(used, env, params, p, lets, fuel, depth);
      if f in p.funcs { SubstAllUsed(p.funcs[f].params, args, env, p.funcs, depth); }
      SubstedCallMeans(f, args, as'.value, params, p, lets, fuel, depth);
      var r := Expand(Call(f, as'.value), p.funcs, depth);
      if r.Some? { CleanIsFixed(r.value, p.funcs, depth); }
    }
  }

  lemma {:induction false} SubstedCallMeans(f: string, args: seq<Expr>, as': seq<Expr>, params: map<string, Value>,
      p: Program, lets: Lets, fuel: nat, depth: nat)
    requires TightBodies(p.funcs) && ExpandedLets(p, lets)
    requires f !in p.funcs ==>
      AllMean(ExpandAll(as', p.funcs, depth), RunAll(args, params, p, fuel, depth), p.funcs, lets, fuel)
    requires f in p.funcs ==>
      AllMean(ExpandAll(Used(p.funcs[f].params, as'), p.funcs, depth),
              RunAll(Used(p.funcs[f].params, args), params, p, fuel, depth), p.funcs, lets, fuel)
    ensures Means(Expand(Call(f, as'), p.funcs, depth), Run(Call(f, args), params, p, fuel, depth), p.funcs, lets, fuel)
    decreases fuel, 2 * depth, 0
  {
    if f in p.funcs && depth > 0 {
      var xs := ExpandAll(Used(p.funcs[f].params, as'), p.funcs, depth);
      if xs.Some? {
        RunCall(f, args, params, p, fuel, depth);
        BodyMeans(f, xs.value, p, lets, fuel, depth - 1);
      }
    }
  }

  lemma {:induction false} SubstAllMeans(es: seq<Expr>, env: Bindings, params: map<string, Value>, p: Program,
      lets: Lets, fuel: nat, depth: nat)
    requires TightBodies(p.funcs) && ExpandedLets(p, lets)
    requires Matches(env, params, lets, fuel) && CleanBindings(env, p.funcs)
    ensures var ss := SubstAll(es, env, p.funcs, depth);
            ss.Some? ==>
              && ((forall x :: x in OuterIdentsAll(es) ==> !ZeroArg(p.funcs, x)) ==> AllClean(ss.value, p.funcs))
              && AllMean(ExpandAll(ss.value, p.funcs, depth), RunAll(es, params, p, fuel, depth), p.funcs, lets, fuel)
    decreases fuel, 2 * depth + 1, es
  {
    if es != [] {
      SubstMeans(es[0], env, params, p, lets, fuel, depth);
      SubstAllMeans(es[1..], env, params, p, lets, fuel, depth);
    }
  }

  /** The theorem on expansion: whatever expansion returns mentions no user function, is left
      alone by another pass, and evaluates as the program that performs the calls. */
  lemma ExpansionPreservesMeaning(e: Expr, p: Program, lets: Lets, fuel: nat, depth: nat, again: nat)
    requires TightBodies(p.funcs) && ExpandedLets(p, lets) && Expand(e, p.funcs, depth).Some?
    ensures var r := Expand(e, p.funcs, depth).value;
            && Clean(r, p.funcs)
            && Expand(r, p.funcs, again) == Some(r)
            && Eval(r, lets, fuel) == Run(e, map[], p, fuel, depth)
  {
    ExpandMeans(e, p, lets, fuel, depth);
    CleanIsFixed(Expand(e, p.funcs, depth).value, p.funcs, again);
  }

  lemma ExpandClean(e: Expr, funcs: Funcs, depth: nat)
    requires TightBodies(funcs)
    ensures Expand(e, funcs, depth).Some? ==> Clean(Expand(e, funcs, depth).value, funcs)
  {
    ExpandMeans(e, Program(map[], funcs, 0), map[], 0, depth);
  }

  // ---- Exactly when expansion leaves nothing behind ----

  /** What expansion returns, it returns clean. */
  ghost predicate LeavesNothing(funcs: Funcs) {
    forall e: Expr, depth: nat :: Expand(e, funcs, depth).Some? ==> Clean(Expand(e, funcs, depth).value, funcs)
  }

  ghost predicate ReturnsWithin(funcs: Funcs, depth: nat) {
    forall e :: Expand(e, funcs, depth).Some?
  }

  /** Without arguments substitution keeps every loose name. */
  lemma {:induction false} LooseNameStays(e: Expr, funcs: Funcs, depth: nat, x: string)
    requires x in OuterIdents(e) && ZeroArg(funcs, x)
    ensures Subst(e, map[], funcs, depth).Some? ==> !Clean(Subst(e, map[], funcs, depth).value, funcs)
    decreases e
  {
    match e
    case Bin(l, _, r) => LooseNameStays(if x in OuterIdents(l) then l else r, funcs, depth, x);
    case Cond(c, y, n) =>
      LooseNameStays(if x in OuterIdents(c) then c else if x in OuterIdents(y) then y else n, funcs, depth, x);
    case List(es) => LooseNameStaysAll(es, funcs, depth, x);
    case _ =>
  }

  lemma {:induction false} LooseNameStaysAll(es: seq<Expr>, funcs: Funcs, depth: nat, x: string)
    requires x in OuterIdentsAll(es) && ZeroArg(funcs, x)
    ensures SubstAll(es, map[], funcs, depth).Some? ==> !AllClean(SubstAll(es, map[], funcs, depth).value, funcs)
    decreases es
  {
    var ss := SubstAll(es, map[], funcs, depth);
    if ss.Some? {
      if x in OuterIdents(es[0]) {
        LooseNameStays(es[0], funcs, depth, x);
        assert !Clean(ss.value[0], funcs);
      } else {
        LooseNameStaysAll(es[1..], funcs, depth, x);
        var rest := SubstAll(es[1..], map[], funcs, depth).value;
        var i :| 0 <= i < |rest| && !Clean(rest[i], funcs);
        assert ss.value[i + 1] == rest[i];
      }
    }
  }

  /** Calling a function whose body has a loose name leaves the name in the result, though at top
      level the same name is expanded. */
  lemma BareNameSurvivesInBody(f: string, x: string, funcs: Funcs, depth: nat)
    requires f in funcs && x in OuterIdents(funcs[f].body) && ZeroArg(funcs, x)
    ensures Expand(Call(f, []), funcs, depth).Some? ==> !Clean(Expand(Call(f, []), funcs, depth).value, funcs)
    ensures depth > 0 ==> Expand(Ident(x), funcs, depth) == Expand(funcs[x].body, funcs, depth - 1)
  {
    assert Used<Expr>(funcs[f].params, []) == [] && Bind<Expr>(funcs[f].params, []) == map[];
    assert ExpandAll([], funcs, depth) == Some([]);
    if depth > 0 { LooseNameStays(funcs[f].body, funcs, depth - 1, x); }
  }

  /** Where expansion returns on every expression, it leaves nothing behind if and only if no body
      has a zero-argument name outside the arguments of a call. */
  lemma CleanIffTight(funcs: Funcs, enough: nat)
    requires ReturnsWithin(funcs, enough)
    ensures LeavesNothing(funcs) <==> TightBodies(funcs)
  {
    if TightBodies(funcs) {
      forall e: Expr, depth: nat | Expand(e, funcs, depth).Some? ensures Clean(Expand(e, funcs, depth).value, funcs) {
        ExpandClean(e, funcs, depth);
      }
    } else {
      var f :| f in funcs && !NoLooseNames(funcs[f].body, funcs);
      var x :| x in OuterIdents(funcs[f].body) && ZeroArg(funcs, x);
      BareNameSurvivesInBody(f, x, funcs, enough);
      assert Expand(Call(f, []), funcs, enough).Some?;
    }
  }
}
