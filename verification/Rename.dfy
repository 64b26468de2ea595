/** internal/devlang/resolve.go: renaming the declarations of a file imported under an alias. */
module Rename {
  import opened Wrappers
  import opened Expr
  import opened Types
  import opened Functions
  import Steps

  datatype Decl =
    | Import(path: string, alias: string)
    | Version(version: string)
    | Target(name: string, address: string)
    | Fleet(name: string)
    | Node(node: Steps.NodeDecl)
    | Let(name: string, value: Expr)
    | StepDecl(name: string, params: seq<Steps.Param>, body: Steps.NodeDecl)
    | Primitive(name: string, decls: seq<Decl>)
    | FnDecl(name: string, args: seq<string>, result: Expr)
    | Module(name: string, decls: seq<Decl>)
    | For(loop: string, range: Expr, decls: seq<Decl>)

  function Qualify(prefix: string, x: string): string {
    prefix + "." + x
  }

  lemma QualifyInjective(prefix: string, x: string, y: string)
    requires Qualify(prefix, x) == Qualify(prefix, y)
    ensures x == y
  {
    assert Qualify(prefix, x)[|prefix| + 1..] == x && Qualify(prefix, y)[|prefix| + 1..] == y;
  }

  /** collectNames: for-loops, imports and versions name nothing. */
  function NameOf(d: Decl): set<string> {
    match d
    case Import(_, _) => {}
    case Version(_) => {}
    case For(_, _, _) => {}
    case Node(n) => {n.name}
    case _ => {d.name}
  }

  function CollectNames(ds: seq<Decl>): (names: set<string>)
    ensures forall d :: d in ds ==> NameOf(d) <= names
  {
    if ds == [] then {} else NameOf(ds[0]) + CollectNames(ds[1..])
  }

  function PrefixIdent(x: string, prefix: string, names: set<string>): string {
    if x in names then Qualify(prefix, x) else x
  }

  function PrefixExpr(e: Expr, prefix: string, names: set<string>): Expr
    decreases e
  {
    match e
    case Ident(x) => Ident(PrefixIdent(x, prefix, names))
    case List(es) => List(PrefixExprs(es, prefix, names))
    case Bin(l, op, r) => Bin(PrefixExpr(l, prefix, names), op, PrefixExpr(r, prefix, names))
    case Cond(c, y, n) => Cond(PrefixExpr(c, prefix, names), PrefixExpr(y, prefix, names), PrefixExpr(n, prefix, names))
    case Call(f, args) => Call(PrefixIdent(f, prefix, names), PrefixExprs(args, prefix, names))
    case _ => e
  }

  function PrefixExprs(es: seq<Expr>, prefix: string, names: set<string>): seq<Expr>
    decreases es
  {
    if es == [] then [] else [PrefixExpr(es[0], prefix, names)] + PrefixExprs(es[1..], prefix, names)
  }

  /** A node keeps a name that already has a dot; what refers to it does not look for one. */
  function PrefixNodeName(x: string, prefix: string, names: set<string>): string {
    if '.' in x then x else PrefixIdent(x, prefix, names)
  }

  function PrefixNode(d: Steps.NodeDecl, prefix: string, names: set<string>): Steps.NodeDecl {
    Steps.NodeDecl(
      PrefixNodeName(d.name, prefix, names),
      if d.typ.Some? then Some(PrefixIdent(d.typ.value, prefix, names)) else None,
      seq(|d.targets|, i requires 0 <= i < |d.targets| => PrefixIdent(d.targets[i], prefix, names)),
      seq(|d.dependsOn|, i requires 0 <= i < |d.dependsOn| => PrefixIdent(d.dependsOn[i], prefix, names)),
      map k | k in d.inputs :: PrefixExpr(d.inputs[k], prefix, names),
      if d.policy.Some? then Some(PrefixIdent(d.policy.value, prefix, names)) else None)
  }

  function PrefixDecl(d: Decl, prefix: string, names: set<string>): Decl
    decreases d
  {
    match d
    case Target(x, a) => Target(Qualify(prefix, x), a)
    case Fleet(x) => Fleet(Qualify(prefix, x))
    case Node(n) => Node(PrefixNode(n, prefix, names))
    case Let(x, v) => Let(Qualify(prefix, x), PrefixExpr(v, prefix, names))
    case StepDecl(x, ps, b) => StepDecl(Qualify(prefix, x), ps, PrefixNode(b, prefix, names))
    case Primitive(x, ds) => Primitive(Qualify(prefix, x), PrefixDecls(ds, prefix, names))
    case FnDecl(x, ps, b) => FnDecl(Qualify(prefix, x), ps, PrefixExpr(b, prefix, names))
    case Module(x, ds) => Module(Qualify(prefix, x), PrefixDecls(ds, prefix, names))
    case _ => d
  }

  function PrefixDecls(ds: seq<Decl>, prefix: string, names: set<string>): (r: seq<Decl>)
    decreases ds
  {
    if ds == [] then [] else [PrefixDecl(ds[0], prefix, names)] + PrefixDecls(ds[1..], prefix, names)
  }

  // ---- The program a list of declarations makes ----

  function LetsOf(ds: seq<Decl>): Lets {
    if ds == [] then map[]
    else
      var rest := LetsOf(ds[1..]);
      if ds[0].Let? then rest[ds[0].name := ds[0].value] else rest
  }

  function FuncsOf(ds: seq<Decl>): Funcs {
    if ds == [] then map[]
    else
      var rest := FuncsOf(ds[1..]);
      if ds[0].FnDecl? then rest[ds[0].name := Fn(ds[0].args, ds[0].result)] else rest
  }

  function Callees(e: Expr): set<string>
    decreases e
  {
    match e
    case List(es) => CalleesAll(es)
    case Bin(l, _, r) => Callees(l) + Callees(r)
    case Cond(c, y, n) => Callees(c) + Callees(y) + Callees(n)
    case Call(f, args) => {f} + CalleesAll(args)
    case _ => {}
  }

  function CalleesAll(es: seq<Expr>): set<string>
    decreases es
  {
    if es == [] then {} else Callees(es[0]) + CalleesAll(es[1..])
  }

  // ---- Renaming keeps meaning ----

  /** Every call of a user function supplies at least its parameters. */
  predicate Supplied(e: Expr, funcs: Funcs)
    decreases e
  {
    match e
    case Call(f, args) => (f in funcs ==> |args| >= |funcs[f].params|) && SuppliedAll(args, funcs)
    case List(es) => SuppliedAll(es, funcs)
    case Bin(l, _, r) => Supplied(l, funcs) && Supplied(r, funcs)
    case Cond(c, y, n) => Supplied(c, funcs) && Supplied(y, funcs) && Supplied(n, funcs)
    case _ => true
  }

  predicate SuppliedAll(es: seq<Expr>, funcs: Funcs)
    decreases es
  {
    es == [] || (Supplied(es[0], funcs) && SuppliedAll(es[1..], funcs))
  }

  lemma {:induction false} RunAllLength(es: seq<Expr>, params: map<string, Value>, p: Program, fuel: nat, depth: nat)
    ensures |RunAll(es, params, p, fuel, depth)| == |es|
  {
    if es != [] { RunAllLength(es[1..], params, p, fuel, depth); }
  }

  /** None of these names, unless renamed or a parameter in scope, is taken in q. */
  ghost predicate NotCaptured(idents: seq<string>, callees: set<string>, params: set<string>, q: Program,
      names: set<string>) {
    && (forall x :: x in idents && x !in names && x !in params ==> x !in q.lets && !ZeroArg(q.funcs, x))
    && (forall f :: f in callees && f !in names ==> f !in q.funcs)
  }

  /** No parameter is renamed or looks renamed. */
  ghost predicate KeepsApart(params: set<string>, prefix: string, names: set<string>) {
    forall x :: x in names ==> x !in params && Qualify(prefix, x) !in params
  }

  /** e may be moved into q. */
  ghost predicate Movable(e: Expr, params: set<string>, funcs: Funcs, q: Program, prefix: string, names: set<string>) {
    Supplied(e, funcs) && NotCaptured(Idents(e), Callees(e), params, q, names) && KeepsApart(params, prefix, names)
  }

  function Params(fn: Fn): set<string> {
    set x | x in fn.params
  }

  function RenamedFn(fn: Fn, prefix: string, names: set<string>): Fn {
    Fn(fn.params, PrefixExpr(fn.body, prefix, names))
  }

  /** q holds p's definitions under the prefix, and under the prefix nothing else. */
  ghost predicate Renames(p: Program, q: Program, prefix: string, names: set<string>) {
    && q.nest == p.nest && p.lets.Keys <= names && p.funcs.Keys <= names
    && (forall x :: x in names ==>
         (Qualify(prefix, x) in q.lets <==> x in p.lets) && (Qualify(prefix, x) in q.funcs <==> x in p.funcs))
    && (forall x :: x in p.lets ==>
         q.lets[Qualify(prefix, x)] == PrefixExpr(p.lets[x], prefix, names)
             && Movable(p.lets[x], {}, p.funcs, q, prefix, names))
    && (forall f :: f in p.funcs ==> && q.funcs[Qualify(prefix, f)] == RenamedFn(p.funcs[f], prefix, names)
                                     && Movable(p.funcs[f].body, Params(p.funcs[f]), p.funcs, q, prefix, names))
  }

  /** The same result, an unresolved module name being reported under its new name. */
  function Carry(v: Value, prefix: string, names: set<string>): Value {
    if v.Err? && v.error.Unresolved? then Err(Unresolved(PrefixIdent(v.error.name, prefix, names))) else v
  }

  function CarryAll(vs: seq<Value>, prefix: string, names: set<string>): seq<Value> {
    if vs == [] then [] else [Carry(vs[0], prefix, names)] + CarryAll(vs[1..], prefix, names)
  }

  function CarryParams(ps: map<string, Value>, prefix: string, names: set<string>): map<string, Value> {
    map x | x in ps :: Carry(ps[x], prefix, names)
  }

  function CarrySeq(r: Result<seq<Expr>, EvalError>, prefix: string, names: set<string>): Result<seq<Expr>, EvalError> {
    if r.Err? && r.error.Unresolved? then Err(Unresolved(PrefixIdent(r.error.name, prefix, names))) else r
  }

  lemma {:induction false} CollectCarries(vs: seq<Value>, prefix: string, names: set<string>)
    ensures Collect(CarryAll(vs, prefix, names)) == CarrySeq(Collect(vs), prefix, names)
  {
    if vs != [] {
      CollectCarries(vs[1..], prefix, names);
      assert CarryAll(vs, prefix, names)[1..] == CarryAll(vs[1..], prefix, names);
    }
  }

  lemma {:induction false} BindKeys(params: seq<string>, vs: seq<Value>)
    requires |vs| >= |params|
    ensures forall x :: x in Bind(params, vs) <==> x in params
    decreases |params|
  {
    if params != [] { BindKeys(params[1..], vs[1..]); }
  }

  lemma {:induction false} BindCarries(params: seq<string>, vs: seq<Value>, prefix: string, names: set<string>)
    ensures Bind(params, CarryAll(vs, prefix, names)) == CarryParams(Bind(params, vs), prefix, names)
    decreases |params|
  {
    if params != [] && vs != [] {
      BindCarries(params[1..], vs[1..], prefix, names);
      assert CarryAll(vs, prefix, names)[1..] == CarryAll(vs[1..], prefix, names);
      CarryMore(params[0], vs[0], Bind(params[1..], vs[1..]), prefix, names);
    }
  }

  lemma CarryMore(x: string, v: Value, rest: map<string, Value>, prefix: string, names: set<string>)
    ensures CarryParams(map[x := v] + rest, prefix, names)
         == map[x := Carry(v, prefix, names)] + CarryParams(rest, prefix, names)
  {
  }

  /** Renaming keeps meaning: in the importer's program the renamed expression gives what the
      original gives in its own module. */
  lemma {:induction false} RenamingKeepsMeaning(e: Expr, params: map<string, Value>, p: Program, q: Program,
                                                prefix: string, names: set<string>, fuel: nat, depth: nat)
    requires Renames(p, q, prefix, names) && Movable(e, params.Keys, p.funcs, q, prefix, names)
    ensures Run(PrefixExpr(e, prefix, names), CarryParams(params, prefix, names), q, fuel, depth)
         == Carry(Run(e, params, p, fuel, depth), prefix, names)
    decreases fuel, depth, e, 3
  {
    match e
    case Ident(x) => IdentKeepsMeaning(x, params, p, q, prefix, names, fuel, depth);
    case Bin(l, op, r) =>
      RenamingKeepsMeaning(l, params, p, q, prefix, names, fuel, depth);
      RenamingKeepsMeaning(r, params, p, q, prefix, names, fuel, depth);
      BinCarries(Run(l, params, p, fuel, depth), op, Run(r, params, p, fuel, depth), prefix, names);
    case Cond(c, y, n) =>
      RenamingKeepsMeaning(c, params, p, q, prefix, names, fuel, depth);
      RenamingKeepsMeaning(y, params, p, q, prefix, names, fuel, depth);
      RenamingKeepsMeaning(n, params, p, q, prefix, names, fuel, depth);
      CondCarries(Run(c, params, p, fuel, depth), Run(y, params, p, fuel, depth), Run(n, params, p, fuel, depth),
          prefix, names);
    case List(es) => ListKeepsMeaning(es, params, p, q, prefix, names, fuel, depth);
    case Call(f, args) => CallKeepsMeaning(f, args, params, p, q, prefix, names, fuel, depth);
    case _ =>
  }

  lemma BinCarries(l: Value, op: Op, r: Value, prefix: string, names: set<string>)
    ensures EvalBin(Carry(l, prefix, names), op, Carry(r, prefix, names)) == Carry(EvalBin(l, op, r), prefix, names)
  {
  }

  lemma CondCarries(c: Value, y: Value, n: Value, prefix: string, names: set<string>)
    ensures EvalCond(Carry(c, prefix, names), Carry(y, prefix, names), Carry(n, prefix, names))
        == Carry(EvalCond(c, y, n), prefix, names)
  {
  }

  lemma {:induction false} ListKeepsMeaning(es: seq<Expr>, params: map<string, Value>, p: Program, q: Program,
                                            prefix: string, names: set<string>, fuel: nat, depth: nat)
    requires Renames(p, q, prefix, names) && Movable(List(es), params.Keys, p.funcs, q, prefix, names)
    ensures Run(PrefixExpr(List(es), prefix, names), CarryParams(params, prefix, names), q, fuel, depth)
         == Carry(Run(List(es), params, p, fuel, depth), prefix, names)
    decreases fuel, depth, List(es), 0
  {
    RenamingAllKeepsMeaning(es, params, p, q, prefix, names, fuel, depth);
    CollectCarries(RunAll(es, params, p, fuel, depth), prefix, names);
  }

  lemma {:induction false} IdentKeepsMeaning(x: string, params: map<string, Value>, p: Program, q: Program,
                                             prefix: string, names: set<string>, fuel: nat, depth: nat)
    requires Renames(p, q, prefix, names) && Movable(Ident(x), params.Keys, p.funcs, q, prefix, names)
    ensures Run(PrefixExpr(Ident(x), prefix, names), CarryParams(params, prefix, names), q, fuel, depth)
         == Carry(Run(Ident(x), params, p, fuel, depth), prefix, names)
    decreases fuel, depth, Ident(x), 2
  {
    assert x in Idents(Ident(x));
    if x !in params && x in names {
      if ZeroArg(p.funcs, x) {
        FuncNameKeepsMeaning(x, params, p, q, prefix, names, fuel, depth);
      } else if x in p.lets {
        LetKeepsMeaning(x, params, p, q, prefix, names, fuel, depth);
      }
    }
  }

  /** The result of a closed body, and of the same body renamed. */
  function Original(e: Expr, p: Program, fuel: nat, depth: nat): Value {
    Run(e, map[], p, fuel, depth)
  }

  function Renamed(e: Expr, q: Program, prefix: string, names: set<string>, fuel: nat, depth: nat): Value {
    Run(PrefixExpr(e, prefix, names), map[], q, fuel, depth)
  }

  /** The same without parameters, as bodies of lets and of zero-argument functions are read. */
  lemma {:induction false} ClosedKeepsMeaning(e: Expr, p: Program, q: Program, prefix: string, names: set<string>,
                                              fuel: nat, depth: nat)
    requires Renames(p, q, prefix, names) && Movable(e, {}, p.funcs, q, prefix, names)
    ensures Renamed(e, q, prefix, names, fuel, depth) == Carry(Original(e, p, fuel, depth), prefix, names)
    decreases fuel, depth, e, 4
  {
    assert CarryParams(map[], prefix, names) == map[];
    RenamingKeepsMeaning(e, map[], p, q, prefix, names, fuel, depth);
  }

  lemma RenamedFunction(f: string, p: Program, q: Program, prefix: string, names: set<string>)
    requires Renames(p, q, prefix, names) && f in p.funcs
    ensures Qualify(prefix, f) in q.funcs && f in names
    ensures q.funcs[Qualify(prefix, f)] == RenamedFn(p.funcs[f], prefix, names)
    ensures Movable(p.funcs[f].body, Params(p.funcs[f]), p.funcs, q, prefix, names)
  {
  }

  lemma {:induction false} FuncNameKeepsMeaning(x: string, params: map<string, Value>, p: Program, q: Program,
                                                prefix: string, names: set<string>, fuel: nat, depth: nat)
    requires Renames(p, q, prefix, names) && x in names && x !in params && Qualify(prefix, x) !in params
        && ZeroArg(p.funcs, x)
    ensures Run(Ident(Qualify(prefix, x)), CarryParams(params, prefix, names), q, fuel, depth)
         == Carry(Run(Ident(x), params, p, fuel, depth), prefix, names)
    decreases fuel, depth, Ident(x), 0
  {
    RenamedFunction(x, p, q, prefix, names);
    assert Params(p.funcs[x]) == {};
    if depth > 0 {
      var body: Expr, less: nat := p.funcs[x].body, depth - 1;
      ClosedKeepsMeaning(body, p, q, prefix, names, fuel, less);
      NameCarries(x, Qualify(prefix, x), body, params, p, q, prefix, names, fuel, less);
    }
  }

  lemma NameCarries(x: string, px: string, body: Expr, params: map<string, Value>, p: Program, q: Program,
      prefix: string, names: set<string>, fuel: nat, depth: nat)
    requires x !in params && px !in params && x in p.funcs && p.funcs[x] == Fn([], body)
    requires px in q.funcs && q.funcs[px] == RenamedFn(p.funcs[x], prefix, names)
    requires Renamed(body, q, prefix, names, fuel, depth) == Carry(Original(body, p, fuel, depth), prefix, names)
    ensures Run(Ident(px), CarryParams(params, prefix, names), q, fuel, depth + 1)
         == Carry(Run(Ident(x), params, p, fuel, depth + 1), prefix, names)
  {
  }

  lemma {:induction false} LetKeepsMeaning(x: string, params: map<string, Value>, p: Program, q: Program,
                                           prefix: string, names: set<string>, fuel: nat, depth: nat)
    requires Renames(p, q, prefix, names) && x in names && x !in params && Qualify(prefix, x) !in params
    requires !ZeroArg(p.funcs, x) && x in p.lets
    ensures Run(Ident(Qualify(prefix, x)), CarryParams(params, prefix, names), q, fuel, depth)
         == Carry(Run(Ident(x), params, p, fuel, depth), prefix, names)
    decreases fuel, depth, Ident(x), 0
  {
    RenamedLet(x, p, q, prefix, names);
    if fuel > 0 {
      var body, less: nat := p.lets[x], fuel - 1;
      ClosedKeepsMeaning(body, p, q, prefix, names, less, p.nest);
      LetCarries(x, Qualify(prefix, x), body, params, p, q, prefix, names, less, depth);
    }
  }

  lemma RenamedLet(x: string, p: Program, q: Program, prefix: string, names: set<string>)
    requires Renames(p, q, prefix, names) && x in p.lets && !ZeroArg(p.funcs, x)
    ensures x in names && Qualify(prefix, x) in q.lets && !ZeroArg(q.funcs, Qualify(prefix, x)) && q.nest == p.nest
    ensures q.lets[Qualify(prefix, x)] == PrefixExpr(p.lets[x], prefix, names)
    ensures Movable(p.lets[x], {}, p.funcs, q, prefix, names)
  {
  }

  lemma LetCarries(x: string, px: string, body: Expr, params: map<string, Value>, p: Program, q: Program,
      prefix: string, names: set<string>, fuel: nat, depth: nat)
    requires x !in params && px !in params && x in p.lets && p.lets[x] == body && !ZeroArg(p.funcs, x)
    requires px in q.lets && q.lets[px] == PrefixExpr(body, prefix, names) && !ZeroArg(q.funcs, px) && q.nest == p.nest
    requires Renamed(body, q, prefix, names, fuel, p.nest) == Carry(Original(body, p, fuel, p.nest), prefix, names)
    ensures Run(Ident(px), CarryParams(params, prefix, names), q, fuel + 1, depth)
         == Carry(Run(Ident(x), params, p, fuel + 1, depth), prefix, names)
  {
  }

  lemma {:induction false} CallKeepsMeaning(f: string, args: seq<Expr>, params: map<string, Value>, p: Program,
      q: Program, prefix: string, names: set<string>, fuel: nat, depth: nat)
    requires Renames(p, q, prefix, names) && Movable(Call(f, args), params.Keys, p.funcs, q, prefix, names)
    ensures Run(PrefixExpr(Call(f, args), prefix, names), CarryParams(params, prefix, names), q, fuel, depth)
         == Carry(Run(Call(f, args), params, p, fuel, depth), prefix, names)
    decreases fuel, depth, Call(f, args), 0
  {
    RenamingAllKeepsMeaning(args, params, p, q, prefix, names, fuel, depth);
    assert f in Callees(Call(f, args));
    if f in p.funcs && depth > 0 {
      RunAllLength(args, params, p, fuel, depth);
      var vs := RunAll(args, params, p, fuel, depth);
      RenamedFunction(f, p, q, prefix, names);
      var fn: Fn, less: nat := p.funcs[f], depth - 1;
      BodyKeepsMeaning(f, fn, vs, p, q, prefix, names, fuel, less);
      CallCarries(f, fn, args, vs, params, p, q, prefix, names, fuel, less);
    }
  }

  function OriginalBody(fn: Fn, vs: seq<Value>, p: Program, fuel: nat, depth: nat): Value {
    Run(fn.body, Bind(fn.params, vs), p, fuel, depth)
  }

  function RenamedBody(fn: Fn, vs: seq<Value>, q: Program, prefix: string, names: set<string>, fuel: nat,
      depth: nat): Value {
    Run(PrefixExpr(fn.body, prefix, names), Bind(fn.params, CarryAll(vs, prefix, names)), q, fuel, depth)
  }

  lemma CallCarries(f: string, fn: Fn, args: seq<Expr>, vs: seq<Value>, params: map<string, Value>, p: Program,
      q: Program, prefix: string, names: set<string>, fuel: nat, depth: nat)
    requires f in names && f in p.funcs && p.funcs[f] == fn
    requires Qualify(prefix, f) in q.funcs && q.funcs[Qualify(prefix, f)] == RenamedFn(fn, prefix, names)
    requires RunAll(args, params, p, fuel, depth + 1) == vs
    requires RunAll(PrefixExprs(args, prefix, names), CarryParams(params, prefix, names), q, fuel, depth + 1)
          == CarryAll(vs, prefix, names)
    requires RenamedBody(fn, vs, q, prefix, names, fuel, depth)
          == Carry(OriginalBody(fn, vs, p, fuel, depth), prefix, names)
    ensures Run(PrefixExpr(Call(f, args), prefix, names), CarryParams(params, prefix, names), q, fuel, depth + 1)
         == Carry(Run(Call(f, args), params, p, fuel, depth + 1), prefix, names)
  {
    RunsBody(f, fn, args, vs, params, p, fuel, depth);
    RunsBody(Qualify(prefix, f), RenamedFn(fn, prefix, names), PrefixExprs(args, prefix, names),
        CarryAll(vs, prefix, names), CarryParams(params, prefix, names), q, fuel, depth);
  }

  /** A call runs the body on its arguments' results. */
  lemma RunsBody(f: string, fn: Fn, args: seq<Expr>, vs: seq<Value>, params: map<string, Value>, p: Program, fuel: nat,
      depth: nat)
    requires f in p.funcs && p.funcs[f] == fn && RunAll(args, params, p, fuel, depth + 1) == vs
    ensures Run(Call(f, args), params, p, fuel, depth + 1) == OriginalBody(fn, vs, p, fuel, depth)
  {
    BindIsByPosition(fn.params, vs);
  }

  lemma {:induction false} BodyKeepsMeaning(f: string, fn: Fn, vs: seq<Value>, p: Program, q: Program,
                                            prefix: string, names: set<string>, fuel: nat, depth: nat)
    requires Renames(p, q, prefix, names) && f in p.funcs && p.funcs[f] == fn && |vs| >= |fn.params|
    ensures RenamedBody(fn, vs, q, prefix, names, fuel, depth)
         == Carry(OriginalBody(fn, vs, p, fuel, depth), prefix, names)
    decreases fuel, depth, fn.body, 4
  {
    BindCarries(fn.params, vs, prefix, names);
    BindKeys(fn.params, vs);
    assert Bind(fn.params, vs).Keys == Params(fn);
    RenamingKeepsMeaning(fn.body, Bind(fn.params, vs), p, q, prefix, names, fuel, depth);
  }

  lemma {:induction false} RenamingAllKeepsMeaning(es: seq<Expr>, params: map<string, Value>, p: Program, q: Program,
                                                   prefix: string, names: set<string>, fuel: nat, depth: nat)
    requires Renames(p, q, prefix, names) && SuppliedAll(es, p.funcs)
    requires NotCaptured(IdentsAll(es), CalleesAll(es), params.Keys, q, names) && KeepsApart(params.Keys, prefix, names)
    ensures RunAll(PrefixExprs(es, prefix, names), CarryParams(params, prefix, names), q, fuel, depth)
         == CarryAll(RunAll(es, params, p, fuel, depth), prefix, names)
    decreases fuel, depth, es
  {
    if es != [] {
      RenamingKeepsMeaning(es[0], params, p, q, prefix, names, fuel, depth);
      RenamingAllKeepsMeaning(es[1..], params, p, q, prefix, names, fuel, depth);
      assert PrefixExprs(es, prefix, names)[1..] == PrefixExprs(es[1..], prefix, names);
      assert RunAll(es, params, p, fuel, depth)[1..] == RunAll(es[1..], params, p, fuel, depth);
    }
  }

  // ---- From declarations to programs ----

  /** Every name defined is a definition's under the prefix. */
  ghost predicate DefinesOnly(defined: set<string>, originals: set<string>, prefix: string) {
    forall y :: y in defined ==> exists x :: x in originals && y == Qualify(prefix, x)
  }

  lemma {:induction false} PrefixedDefinitions(ds: seq<Decl>, prefix: string, names: set<string>, x: string)
    ensures var ps, px := PrefixDecls(ds, prefix, names), Qualify(prefix, x);
            && (px in LetsOf(ps) <==> x in LetsOf(ds))
            && (x in LetsOf(ds) ==> LetsOf(ps)[px] == PrefixExpr(LetsOf(ds)[x], prefix, names))
            && (px in FuncsOf(ps) <==> x in FuncsOf(ds))
            && (x in FuncsOf(ds) ==> FuncsOf(ps)[px] == Fn(FuncsOf(ds)[x].params,
                PrefixExpr(FuncsOf(ds)[x].body, prefix, names)))
    ensures DefinesOnly(LetsOf(PrefixDecls(ds, prefix, names)).Keys, LetsOf(ds).Keys, prefix)
         && DefinesOnly(FuncsOf(PrefixDecls(ds, prefix, names)).Keys, FuncsOf(ds).Keys, prefix)
  {
    if ds != [] {
      PrefixedDefinitions(ds[1..], prefix, names, x);
      var ps := PrefixDecls(ds, prefix, names);
      assert ps[1..] == PrefixDecls(ds[1..], prefix, names);
      if (ds[0].Let? || ds[0].FnDecl?) && Qualify(prefix, ds[0].name) == Qualify(prefix, x) {
        QualifyInjective(prefix, ds[0].name, x);
      }
    }
  }

  lemma {:induction false} DefinitionsAppend(ds: seq<Decl>, others: seq<Decl>)
    ensures LetsOf(ds + others) == LetsOf(others) + LetsOf(ds)
    ensures FuncsOf(ds + others) == FuncsOf(others) + FuncsOf(ds)
  {
    if ds == [] {
      assert ds + others == others;
    } else {
      DefinitionsAppend(ds[1..], others);
      assert (ds + others)[1..] == ds[1..] + others;
    }
  }

  lemma {:induction false} DefinitionsAreNamed(ds: seq<Decl>)
    ensures LetsOf(ds).Keys <= CollectNames(ds) && FuncsOf(ds).Keys <= CollectNames(ds)
  {
    if ds != [] {
      DefinitionsAreNamed(ds[1..]);
    }
  }

  function ProgramOf(ds: seq<Decl>, nest: nat): Program {
    Program(LetsOf(ds), FuncsOf(ds), nest)
  }

  /** Every let and function body of p may be moved into q. */
  ghost predicate BodiesMovable(p: Program, q: Program, prefix: string, names: set<string>) {
    && (forall x :: x in p.lets ==> Movable(p.lets[x], {}, p.funcs, q, prefix, names))
    && (forall f :: f in p.funcs ==> Movable(p.funcs[f].body, Params(p.funcs[f]), p.funcs, q, prefix, names))
  }

  /** An import under an alias keeps meaning: an expression of the module, renamed and read among
      the importer's declarations, gives what it gave in the module. */
  lemma AliasedImportKeepsMeaning(ds: seq<Decl>, others: seq<Decl>, prefix: string, nest: nat, e: Expr, fuel: nat,
      depth: nat)
    requires var names := CollectNames(ds);
             forall x :: x in names ==> Qualify(prefix, x) !in LetsOf(others) && Qualify(prefix, x) !in FuncsOf(others)
    requires var names := CollectNames(ds);
             var p, q := ProgramOf(ds, nest), ProgramOf(PrefixDecls(ds, prefix, names) + others, nest);
             BodiesMovable(p, q, prefix, names) && Movable(e, {}, p.funcs, q, prefix, names)
    ensures var names := CollectNames(ds);
            var p, q := ProgramOf(ds, nest), ProgramOf(PrefixDecls(ds, prefix, names) + others, nest);
            Run(PrefixExpr(e, prefix, names), map[], q, fuel, depth)
                == Carry(Run(e, map[], p, fuel, depth), prefix, names)
  {
    var names := CollectNames(ds);
    var ps := PrefixDecls(ds, prefix, names);
    var p, q := ProgramOf(ds, nest), ProgramOf(ps + others, nest);
    DefinitionsAppend(ps, others);
    DefinitionsAreNamed(ds);
    forall x | x in names
      ensures (Qualify(prefix, x) in q.lets <==> x in p.lets) && (Qualify(prefix, x) in q.funcs <==> x in p.funcs)
    {
      PrefixedDefinitions(ds, prefix, names, x);
    }
    forall x | x in p.lets ensures q.lets[Qualify(prefix, x)] == PrefixExpr(p.lets[x], prefix, names) {
      PrefixedDefinitions(ds, prefix, names, x);
    }
    forall f | f in p.funcs
      ensures q.funcs[Qualify(prefix, f)] == RenamedFn(p.funcs[f], prefix, names)
    {
      PrefixedDefinitions(ds, prefix, names, f);
    }
    assert Renames(p, q, prefix, names);
    ClosedKeepsMeaning(e, p, q, prefix, names, fuel, depth);
  }

  // ---- Where renaming goes wrong ----

  /** e means in q, renamed, what it means in p, for the parameters given and at these depths. */
  ghost predicate Keeps(e: Expr, params: map<string, Value>, p: Program, q: Program, prefix: string, names: set<string>,
      fuel: nat, depth: nat) {
    Run(PrefixExpr(e, prefix, names), CarryParams(params, prefix, names), q, fuel, depth)
    == Carry(Run(e, params, p, fuel, depth), prefix, names)
  }

  /** Every body over these parameters that meets the other hypotheses keeps its meaning. */
  ghost predicate BodiesKeep(params: set<string>, p: Program, q: Program, prefix: string, names: set<string>,
      fuel: nat, depth: nat) {
    forall e, given: map<string, Value> ::
      given.Keys == params && Supplied(e, p.funcs) && NotCaptured(Idents(e), Callees(e), params, q, names)
      ==> Keeps(e, given, p, q, prefix, names, fuel, depth)
  }

  /** Parameters are renamed in bodies and not in the parameter list. That is harmless, over all
      bodies, if and only if no parameter is a name of the module or looks like a renamed one. */
  lemma ParameterCapture(params: set<string>, p: Program, q: Program, prefix: string, names: set<string>, fuel: nat,
      depth: nat)
    requires Renames(p, q, prefix, names)
    ensures BodiesKeep(params, p, q, prefix, names, fuel, depth) <==> KeepsApart(params, prefix, names)
  {
    if KeepsApart(params, prefix, names) {
      forall e, given: map<string, Value> |
        given.Keys == params && Supplied(e, p.funcs) && NotCaptured(Idents(e), Callees(e), params, q, names)
        ensures Keeps(e, given, p, q, prefix, names, fuel, depth)
      {
        RenamingKeepsMeaning(e, given, p, q, prefix, names, fuel, depth);
      }
    } else {
      var x :| x in names && (x in params || Qualify(prefix, x) in params);
      var given := CapturedParameter(x, params, p, q, prefix, names, fuel, depth);
      assert Idents(Ident(x)) == [x];
    }
  }

  function Unlike(v: Value): Value {
    Ok(Str(if v == Ok(Str("")) then "a" else ""))
  }

  /** The body x, with x itself or its new name a parameter. */
  lemma CapturedParameter(x: string, params: set<string>, p: Program, q: Program, prefix: string, names: set<string>,
      fuel: nat, depth: nat) returns (given: map<string, Value>)
    requires x in names && (x in params || Qualify(prefix, x) in params)
    ensures given.Keys == params && !Keeps(Ident(x), given, p, q, prefix, names, fuel, depth)
  {
    var px := Qualify(prefix, x);
    assert |px| > |x|;
    if x in params && px in params {
      given := map y | y in params :: Ok(Str(if y == x then "a" else ""));
    } else {
      var free := if x in params then Run(Ident(px), map[], q, fuel, depth)
                  else Carry(Run(Ident(x), map[], p, fuel, depth), prefix, names);
      given := map y | y in params :: Unlike(free);
    }
  }

  /** A call in the module: its parameter is renamed in the body only, so the identity function
      no longer returns its argument. */
  lemma IdentityLosesItsParameter(a: string, names: set<string>, prefix: string, v: string)
    ensures var q := Program(map[], map[Qualify(prefix, "f") := Fn([a], PrefixExpr(Ident(a), prefix, names))], 0);
            Run(Call(Qualify(prefix, "f"), [Str(v)]), map[], q, 0, 1) == Ok(Str(v)) <==> a !in names
  {
    var q := Program(map[], map[Qualify(prefix, "f") := Fn([a], PrefixExpr(Ident(a), prefix, names))], 0);
    assert [Str(v)][1..] == [];
    var vs := RunAll([Str(v)], map[], q, 0, 1);
    assert RunAll([], map[], q, 0, 1) == [];
    assert Run(Str(v), map[], q, 0, 1) == Ok(Str(v));
    assert RunAll([Str(v)], map[], q, 0, 1)
      == [Run([Str(v)][0], map[], q, 0, 1)] + RunAll([Str(v)][1..], map[], q, 0, 1);
    assert vs == [Ok(Str(v))];
    assert [a][1..] == [];
    assert Bind([a], vs) == map[a := Ok(Str(v))];
    if a in names {
      assert |Qualify(prefix, a)| > |a|;
      assert Qualify(prefix, a) != a;
    }
  }

  /** q defines x, so that a bare x means something there. */
  ghost predicate Defines(q: Program, x: string) {
    x in q.lets || ZeroArg(q.funcs, x)
  }

  ghost predicate NeverReports(vs: map<string, Value>, x: string) {
    forall y :: y in vs ==> vs[y] != Err(Unresolved(x))
  }

  /** A name that is defined is never reported as unresolved. */
  lemma {:induction false} DefinedIsNotReported(e: Expr, params: map<string, Value>, q: Program, x: string, fuel: nat,
      depth: nat)
    requires Defines(q, x) && NeverReports(params, x)
    ensures Run(e, params, q, fuel, depth) != Err(Unresolved(x))
    decreases fuel, depth, e
  {
    match e
    case Ident(y) =>
      if y !in params {
        if ZeroArg(q.funcs, y) {
          if depth > 0 { DefinedIsNotReported(q.funcs[y].body, map[], q, x, fuel, depth - 1); }
        } else if y in q.lets && fuel > 0 {
          DefinedIsNotReported(q.lets[y], map[], q, x, fuel - 1, q.nest);
        }
      }
    case Bin(l, _, r) =>
      DefinedIsNotReported(l, params, q, x, fuel, depth);
      DefinedIsNotReported(r, params, q, x, fuel, depth);
    case Cond(c, y, n) =>
      DefinedIsNotReported(c, params, q, x, fuel, depth);
      DefinedIsNotReported(y, params, q, x, fuel, depth);
      DefinedIsNotReported(n, params, q, x, fuel, depth);
    case List(es) =>
      DefinedIsNotReportedAll(es, params, q, x, fuel, depth);
      NothingToCollect(RunAll(es, params, q, fuel, depth), x);
    case Call(f, args) =>
      if f in q.funcs && depth > 0 {
        DefinedIsNotReportedAll(args, params, q, x, fuel, depth);
        var vs := RunAll(args, params, q, fuel, depth);
        BindNeverReports(q.funcs[f].params, vs, x);
        BindIsByPosition(q.funcs[f].params, vs);
        DefinedIsNotReported(q.funcs[f].body, Bind(q.funcs[f].params, vs), q, x, fuel, depth - 1);
      }
    case _ =>
  }

  lemma {:induction false} DefinedIsNotReportedAll(es: seq<Expr>, params: map<string, Value>, q: Program, x: string,
      fuel: nat, depth: nat)
    requires Defines(q, x) && NeverReports(params, x)
    ensures forall i :: 0 <= i < |RunAll(es, params, q, fuel, depth)| ==>
              RunAll(es, params, q, fuel, depth)[i] != Err(Unresolved(x))
    decreases fuel, depth, es
  {
    if es != [] {
      DefinedIsNotReported(es[0], params, q, x, fuel, depth);
      DefinedIsNotReportedAll(es[1..], params, q, x, fuel, depth);
    }
  }

  lemma {:induction false} NothingToCollect(vs: seq<Value>, x: string)
    requires forall i :: 0 <= i < |vs| ==> vs[i] != Err(Unresolved(x))
    ensures Collect(vs) != Err(Unresolved(x))
    decreases |vs|
  {
    if vs != [] { NothingToCollect(vs[1..], x); }
  }

  lemma {:induction false} BindNeverReports(params: seq<string>, vs: seq<Value>, x: string)
    requires forall i :: 0 <= i < |vs| ==> vs[i] != Err(Unresolved(x))
    ensures NeverReports(Bind(params, vs), x)
    decreases |params|
  {
    if params != [] && vs != [] { BindNeverReports(params[1..], vs[1..], x); }
  }

  /** A name the module does not define keeps its meaning, which is an error, if and only if the
      importer does not define it either. */
  lemma ImporterCapture(x: string, p: Program, q: Program, prefix: string, names: set<string>, fuel: nat, depth: nat)
    requires x !in names && x !in p.lets && x !in p.funcs
    ensures Keeps(Ident(x), map[], p, q, prefix, names, fuel, depth) <==> !Defines(q, x)
  {
    assert CarryParams(map[], prefix, names) == map[];
    if Defines(q, x) { DefinedIsNotReported(Ident(x), map[], q, x, fuel, depth); }
  }

  /** Every function that a let or a body of q calls is q's own. */
  ghost predicate KnownCalls(q: Program) {
    && (forall x :: x in q.lets ==> Callees(q.lets[x]) <= q.funcs.Keys)
    && (forall f :: f in q.funcs ==> Callees(q.funcs[f].body) <= q.funcs.Keys)
  }

  ghost predicate Supports(vs: map<string, Value>) {
    forall y :: y in vs ==> vs[y] != Err(Unsupported)
  }

  ghost predicate AllSupported(vs: seq<Value>) {
    forall i :: 0 <= i < |vs| ==> vs[i] != Err(Unsupported)
  }

  /** Calls are the only unsupported expressions. */
  lemma {:induction false} KnownCallsAreSupported(e: Expr, params: map<string, Value>, q: Program, fuel: nat,
      depth: nat)
    requires KnownCalls(q) && Callees(e) <= q.funcs.Keys && Supports(params)
    ensures Run(e, params, q, fuel, depth) != Err(Unsupported)
    decreases fuel, depth, e
  {
    match e
    case Ident(y) =>
      if y !in params {
        if ZeroArg(q.funcs, y) {
          if depth > 0 { KnownCallsAreSupported(q.funcs[y].body, map[], q, fuel, depth - 1); }
        } else if y in q.lets && fuel > 0 {
          KnownCallsAreSupported(q.lets[y], map[], q, fuel - 1, q.nest);
        }
      }
    case Bin(l, _, r) =>
      KnownCallsAreSupported(l, params, q, fuel, depth);
      KnownCallsAreSupported(r, params, q, fuel, depth);
    case Cond(c, y, n) =>
      KnownCallsAreSupported(c, params, q, fuel, depth);
      KnownCallsAreSupported(y, params, q, fuel, depth);
      KnownCallsAreSupported(n, params, q, fuel, depth);
    case List(es) =>
      AllKnownCallsAreSupported(es, params, q, fuel, depth);
      SupportedCollects(RunAll(es, params, q, fuel, depth));
    case Call(f, args) =>
      assert f in Callees(e);
      if depth > 0 {
        AllKnownCallsAreSupported(args, params, q, fuel, depth);
        var vs := RunAll(args, params, q, fuel, depth);
        BindSupports(q.funcs[f].params, vs);
        BindIsByPosition(q.funcs[f].params, vs);
        KnownCallsAreSupported(q.funcs[f].body, Bind(q.funcs[f].params, vs), q, fuel, depth - 1);
      }
    case _ =>
  }

  lemma {:induction false} AllKnownCallsAreSupported(es: seq<Expr>, params: map<string, Value>, q: Program, fuel: nat,
      depth: nat)
    requires KnownCalls(q) && CalleesAll(es) <= q.funcs.Keys && Supports(params)
    ensures AllSupported(RunAll(es, params, q, fuel, depth))
    decreases fuel, depth, es
  {
    if es != [] {
      KnownCallsAreSupported(es[0], params, q, fuel, depth);
      AllKnownCallsAreSupported(es[1..], params, q, fuel, depth);
    }
  }

  lemma {:induction false} SupportedCollects(vs: seq<Value>)
    requires AllSupported(vs)
    ensures Collect(vs) != Err(Unsupported)
    decreases |vs|
  {
    if vs != [] { SupportedCollects(vs[1..]); }
  }

  lemma {:induction false} BindSupports(params: seq<string>, vs: seq<Value>)
    requires AllSupported(vs)
    ensures Supports(Bind(params, vs))
    decreases |params|
  {
    if params != [] && vs != [] { BindSupports(params[1..], vs[1..]); }
  }

  /** The same for a call of a function the module does not define: among importers that call only
      their own functions it keeps its meaning, which is an error, if and only if the importer does
      not define the function either. */
  lemma ImporterCapturesCall(f: string, args: seq<Expr>, p: Program, q: Program, prefix: string, names: set<string>,
      fuel: nat, depth: nat)
    requires f !in names && f !in p.funcs && KnownCalls(q)
      && CalleesAll(PrefixExprs(args, prefix, names)) <= q.funcs.Keys
    ensures Keeps(Call(f, args), map[], p, q, prefix, names, fuel, depth) <==> f !in q.funcs
  {
    assert CarryParams(map[], prefix, names) == map[];
    var renamed := Call(f, PrefixExprs(args, prefix, names));
    assert PrefixExpr(Call(f, args), prefix, names) == renamed;
    if f in q.funcs {
      assert Callees(renamed) == {f} + CalleesAll(PrefixExprs(args, prefix, names));
      KnownCallsAreSupported(renamed, map[], q, fuel, depth);
    }
  }

  /** A parameter without its argument is looked up like any name, so the same happens to it: a
      call of the identity function without an argument keeps its meaning if and only if the
      importer does not define the parameter's name. */
  lemma MissingArgumentCapture(f: string, a: string, p: Program, q: Program, prefix: string, names: set<string>,
      fuel: nat, depth: nat)
    requires f in names && f in p.funcs && p.funcs[f] == Fn([a], Ident(a)) && depth > 0
    requires Qualify(prefix, f) in q.funcs && q.funcs[Qualify(prefix, f)] == p.funcs[f]
    requires a !in names && a !in p.lets && a !in p.funcs
    ensures Keeps(Call(f, []), map[], p, q, prefix, names, fuel, depth) <==> !Defines(q, a)
  {
    assert PrefixExpr(Call(f, []), prefix, names) == Call(Qualify(prefix, f), []);
    assert PrefixExpr(Ident(a), prefix, names) == Ident(a) && CarryParams(map[], prefix, names) == map[];
    RunBare(f, a, p, fuel, depth);
    RunBare(Qualify(prefix, f), a, q, fuel, depth);
    ImporterCapture(a, p, q, prefix, names, fuel, depth - 1);
  }

  lemma RunBare(f: string, a: string, p: Program, fuel: nat, depth: nat)
    requires f in p.funcs && p.funcs[f] == Fn([a], Ident(a)) && depth > 0
    ensures Run(Call(f, []), map[], p, fuel, depth) == Run(Ident(a), map[], p, fuel, depth - 1)
  {
  }

  function NodeNames(ds: seq<Decl>): set<string> {
    set i | 0 <= i < |ds| && ds[i].Node? :: ds[i].node.name
  }

  lemma {:induction false} PrefixDeclsAt(ds: seq<Decl>, prefix: string, names: set<string>, i: nat)
    requires i < |ds|
    ensures |PrefixDecls(ds, prefix, names)| == |ds|
        && PrefixDecls(ds, prefix, names)[i] == PrefixDecl(ds[i], prefix, names)
  {
    if |ds| > 1 { PrefixDeclsAt(ds[1..], prefix, names, if i == 0 then 0 else i - 1); }
  }

  lemma RenamedNodes(ds: seq<Decl>, prefix: string, x: string)
    ensures var names := CollectNames(ds);
            x in NodeNames(PrefixDecls(ds, prefix, names)) <==>
                exists n :: n in NodeNames(ds) && x == PrefixNodeName(n, prefix, names)
  {
    var names := CollectNames(ds);
    var ps := PrefixDecls(ds, prefix, names);
    if x in NodeNames(ps) {
      var i :| 0 <= i < |ps| && ps[i].Node? && ps[i].node.name == x;
      PrefixedLength(ds, prefix, names);
      PrefixDeclsAt(ds, prefix, names, i);
      assert ds[i].node.name in NodeNames(ds);
    }
    if n :| n in NodeNames(ds) && x == PrefixNodeName(n, prefix, names) {
      var i :| 0 <= i < |ds| && ds[i].Node? && ds[i].node.name == n;
      PrefixDeclsAt(ds, prefix, names, i);
      assert ps[i].node.name == x;
    }
  }

  lemma {:induction false} PrefixedLength(ds: seq<Decl>, prefix: string, names: set<string>)
    ensures |PrefixDecls(ds, prefix, names)| == |ds|
  {
    if ds != [] { PrefixedLength(ds[1..], prefix, names); }
  }

  lemma NodesAreNamed(ds: seq<Decl>, n: string)
    requires n in NodeNames(ds)
    ensures n in CollectNames(ds)
  {
    var i :| 0 <= i < |ds| && ds[i].Node? && ds[i].node.name == n;
    assert ds[i] in ds && NameOf(ds[i]) == {n};
  }

  lemma RenamedNameResolves(ds: seq<Decl>, prefix: string, d: string)
    requires d in NodeNames(ds)
    ensures var names := CollectNames(ds);
            PrefixIdent(d, prefix, names) in NodeNames(PrefixDecls(ds, prefix, names))
            <==> '.' !in d || Qualify(prefix, d) in NodeNames(ds)
  {
    var names := CollectNames(ds);
    var pd := Qualify(prefix, d);
    forall n | n in NodeNames(ds) ensures n in names { NodesAreNamed(ds, n); }
    assert pd[|prefix|] == '.';
    RenamedNodes(ds, prefix, pd);
    if n :| n in NodeNames(ds) && pd == PrefixNodeName(n, prefix, names) && '.' !in n {
      QualifyInjective(prefix, n, d);
    }
    if '.' !in d { assert pd == PrefixNodeName(d, prefix, names); }
    if pd in NodeNames(ds) { assert pd == PrefixNodeName(pd, prefix, names); }
  }

  lemma FirstDot(a: string, x: string, b: string, y: string)
    requires Qualify(a, x) == Qualify(b, y) && '.' !in a && '.' !in b
    ensures a == b && x == y
  {
    var q := Qualify(a, x);
    assert forall i :: 0 <= i < |q| ==> (i < |a| ==> q[i] == a[i]) && (i < |b| ==> q[i] == b[i]);
    assert q[|a|] == '.' && q[|b|] == '.';
    assert q[..|a|] == a && q[..|b|] == b;
    QualifyInjective(a, x, y);
  }

  lemma NestedAliasLosesName(ds: seq<Decl>, inner: string, outer: string, d: string)
    requires d in NodeNames(ds) && '.' !in inner && '.' !in outer && forall n :: n in NodeNames(ds) ==> '.' !in n
    ensures var once := PrefixDecls(ds, inner, CollectNames(ds));
            var twice := PrefixDecls(once, outer, CollectNames(once));
            && PrefixIdent(d, inner, CollectNames(ds)) in NodeNames(once)
            && PrefixIdent(PrefixIdent(d, inner, CollectNames(ds)), outer, CollectNames(once)) !in NodeNames(twice)
  {
    var names := CollectNames(ds);
    var once := PrefixDecls(ds, inner, names);
    var id := PrefixIdent(d, inner, names);
    RenamedNameResolves(ds, inner, d);
    NodesAreNamed(ds, d);
    assert id[|inner|] == '.';
    RenamedNameResolves(once, outer, id);
    if Qualify(outer, id) in NodeNames(once) {
      RenamedNodes(ds, inner, Qualify(outer, id));
      var n :| n in NodeNames(ds) && Qualify(outer, id) == PrefixNodeName(n, inner, names);
      NodesAreNamed(ds, n);
      FirstDot(outer, id, inner, n);
    }
  }

  /** The j-th dependency of the i-th declaration. */
  predicate DependsAt(ds: seq<Decl>, i: nat, j: nat) {
    i < |ds| && ds[i].Node? && j < |ds[i].node.dependsOn|
  }

  /** A dependency on a node of the module still names a node after renaming if and only if the
      node's name has no dot, or a node happens to carry the renamed name already. Names get dots
      from an earlier import under an alias, so nesting such imports breaks dependencies. */
  lemma RenamedDependencyResolves(ds: seq<Decl>, prefix: string, i: nat, j: nat)
    requires DependsAt(ds, i, j) && ds[i].node.dependsOn[j] in NodeNames(ds)
    ensures var ps, d := PrefixDecls(ds, prefix, CollectNames(ds)), ds[i].node.dependsOn[j];
            && |ps| == |ds| && DependsAt(ps, i, j) && |ps[i].node.dependsOn| == |ds[i].node.dependsOn|
            && (ps[i].node.dependsOn[j] in NodeNames(ps) <==> '.' !in d || Qualify(prefix, d) in NodeNames(ds))
  {
    PrefixDeclsAt(ds, prefix, CollectNames(ds), i);
    RenamedNameResolves(ds, prefix, ds[i].node.dependsOn[j]);
  }

  /** And always does: no dependency inside the innermost module survives a second alias. */
  lemma NestedAliasLosesDependency(ds: seq<Decl>, inner: string, outer: string, i: nat, j: nat)
    requires DependsAt(ds, i, j) && ds[i].node.dependsOn[j] in NodeNames(ds)
    requires '.' !in inner && '.' !in outer && forall n :: n in NodeNames(ds) ==> '.' !in n
    ensures var once := PrefixDecls(ds, inner, CollectNames(ds));
            var twice := PrefixDecls(once, outer, CollectNames(once));
            && DependsAt(once, i, j) && once[i].node.dependsOn[j] in NodeNames(once)
            && DependsAt(twice, i, j) && twice[i].node.dependsOn[j] !in NodeNames(twice)
  {
    var once := PrefixDecls(ds, inner, CollectNames(ds));
    PrefixDeclsAt(ds, inner, CollectNames(ds), i);
    PrefixDeclsAt(once, outer, CollectNames(once), i);
    NestedAliasLosesName(ds, inner, outer, ds[i].node.dependsOn[j]);
  }

  // ---- Targets, and what is renamed at all ----

  function TargetNames(ds: seq<Decl>): set<string> {
    set i | 0 <= i < |ds| && ds[i].Target? :: ds[i].name
  }

  /** d declares x: imports, versions and for-loops declare nothing. */
  predicate Declares(d: Decl, x: string) {
    || (d.Node? && d.node.name == x)
    || ((d.Target? || d.Fleet? || d.Let? || d.StepDecl? || d.Primitive? || d.FnDecl? || d.Module?) && d.name == x)
  }

  lemma {:induction false} CollectsDeclared(ds: seq<Decl>, x: string)
    ensures x in CollectNames(ds) <==> exists i :: 0 <= i < |ds| && Declares(ds[i], x)
  {
    if ds != [] {
      CollectsDeclared(ds[1..], x);
      assert forall i :: 0 < i < |ds| ==> ds[i] == ds[1..][i - 1];
      assert x in NameOf(ds[0]) <==> Declares(ds[0], x);
      if i :| 0 <= i < |ds[1..]| && Declares(ds[1..][i], x) { assert Declares(ds[i + 1], x); }
    }
  }

  lemma RenamedTargets(ds: seq<Decl>, prefix: string, names: set<string>, x: string)
    ensures Qualify(prefix, x) in TargetNames(PrefixDecls(ds, prefix, names)) <==> x in TargetNames(ds)
  {
    var ps := PrefixDecls(ds, prefix, names);
    PrefixedLength(ds, prefix, names);
    if i :| 0 <= i < |ps| && ps[i].Target? && ps[i].name == Qualify(prefix, x) {
      PrefixDeclsAt(ds, prefix, names, i);
      QualifyInjective(prefix, ds[i].name, x);
    }
    if i :| 0 <= i < |ds| && ds[i].Target? && ds[i].name == x {
      PrefixDeclsAt(ds, prefix, names, i);
      assert ps[i].name == Qualify(prefix, x);
    }
  }

  /** A node's target on a name of the module names a target after renaming if and only if it did before. */
  lemma RenamedTargetResolves(ds: seq<Decl>, prefix: string, i: nat, j: nat)
    requires i < |ds| && ds[i].Node? && j < |ds[i].node.targets|
    requires exists k :: 0 <= k < |ds| && Declares(ds[k], ds[i].node.targets[j])
    ensures var ps := PrefixDecls(ds, prefix, CollectNames(ds));
            && |ps| == |ds| && ps[i].Node? && |ps[i].node.targets| == |ds[i].node.targets|
            && (ps[i].node.targets[j] in TargetNames(ps) <==> ds[i].node.targets[j] in TargetNames(ds))
  {
    PrefixDeclsAt(ds, prefix, CollectNames(ds), i);
    CollectsDeclared(ds, ds[i].node.targets[j]);
    RenamedTargets(ds, prefix, CollectNames(ds), ds[i].node.targets[j]);
  }

  /** Each declaration but a node's, and those that declare nothing, declares its name under the prefix. */
  lemma RenamedDeclares(ds: seq<Decl>, prefix: string, names: set<string>, i: nat, x: string)
    requires i < |ds| && Declares(ds[i], x) && !ds[i].Node?
    ensures i < |PrefixDecls(ds, prefix, names)| && Declares(PrefixDecls(ds, prefix, names)[i], Qualify(prefix, x))
  {
    PrefixDeclsAt(ds, prefix, names, i);
  }

  // ---- Nodes and nested declarations ----

  /** An input of a node keeps its meaning under the hypotheses of AliasedImportKeepsMeaning. */
  lemma NodeInputKeepsMeaning(ds: seq<Decl>, others: seq<Decl>, prefix: string, nest: nat, i: nat, key: string,
      fuel: nat, depth: nat)
    requires i < |ds| && ds[i].Node? && key in ds[i].node.inputs
    requires var names := CollectNames(ds);
             forall x :: x in names ==> Qualify(prefix, x) !in LetsOf(others) && Qualify(prefix, x) !in FuncsOf(others)
    requires var names := CollectNames(ds);
             var p, q := ProgramOf(ds, nest), ProgramOf(PrefixDecls(ds, prefix, names) + others, nest);
             BodiesMovable(p, q, prefix, names) && Movable(ds[i].node.inputs[key], {}, p.funcs, q, prefix, names)
    ensures var names := CollectNames(ds);
            var ps := PrefixDecls(ds, prefix, names);
            && |ps| == |ds| && ps[i].Node? && ps[i].node.inputs.Keys == ds[i].node.inputs.Keys
            && Run(ps[i].node.inputs[key], map[], ProgramOf(ps + others, nest), fuel, depth)
               == Carry(Run(ds[i].node.inputs[key], map[], ProgramOf(ds, nest), fuel, depth), prefix, names)
  {
    var names := CollectNames(ds);
    PrefixDeclsAt(ds, prefix, names, i);
    AliasedImportKeepsMeaning(ds, others, prefix, nest, ds[i].node.inputs[key], fuel, depth);
  }

  function StepNames(ds: seq<Decl>): set<string> {
    set i | 0 <= i < |ds| && ds[i].StepDecl? :: ds[i].name
  }

  lemma RenamedSteps(ds: seq<Decl>, prefix: string, names: set<string>, x: string)
    ensures Qualify(prefix, x) in StepNames(PrefixDecls(ds, prefix, names)) <==> x in StepNames(ds)
  {
    var ps := PrefixDecls(ds, prefix, names);
    PrefixedLength(ds, prefix, names);
    if i :| 0 <= i < |ps| && ps[i].StepDecl? && ps[i].name == Qualify(prefix, x) {
      PrefixDeclsAt(ds, prefix, names, i);
      QualifyInjective(prefix, ds[i].name, x);
    }
    if i :| 0 <= i < |ds| && ds[i].StepDecl? && ds[i].name == x {
      PrefixDeclsAt(ds, prefix, names, i);
      assert ps[i].name == Qualify(prefix, x);
    }
  }

  /** A type declared in the module names a step after renaming exactly where it did before; a type or
      policy that the module does not declare, a built-in one say, stays as it is. */
  lemma RenamedTypeResolves(ds: seq<Decl>, prefix: string, i: nat)
    requires i < |ds| && ds[i].Node?
    ensures var ps, n := PrefixDecls(ds, prefix, CollectNames(ds)), ds[i].node;
            && |ps| == |ds| && ps[i].Node? && (ps[i].node.typ.Some? <==> n.typ.Some?)
            && (n.typ.Some? ==>
                  if exists k :: 0 <= k < |ds| && Declares(ds[k], n.typ.value)
                  then ps[i].node.typ.value in StepNames(ps) <==> n.typ.value in StepNames(ds)
                  else ps[i].node.typ == n.typ)
            && (n.policy.None? || !(exists k :: 0 <= k < |ds| && Declares(ds[k], n.policy.value))
                ==> ps[i].node.policy == n.policy)
  {
    var names, n := CollectNames(ds), ds[i].node;
    PrefixDeclsAt(ds, prefix, names, i);
    if n.typ.Some? {
      CollectsDeclared(ds, n.typ.value);
      RenamedSteps(ds, prefix, names, n.typ.value);
    }
    if n.policy.Some? { CollectsDeclared(ds, n.policy.value); }
  }

  /** The declaration at a path of positions, through primitives and modules. */
  function DeclAt(ds: seq<Decl>, path: seq<nat>): Option<Decl>
    decreases |path|
  {
    if path == [] || path[0] >= |ds| then None
    else if |path| == 1 then Some(ds[path[0]])
    else if ds[path[0]].Primitive? || ds[path[0]].Module? then DeclAt(ds[path[0]].decls, path[1..])
    else None
  }

  /** What stands inside a primitive or a module is renamed like what stands outside, and in its place. */
  lemma {:induction false} NestedAreRenamed(ds: seq<Decl>, prefix: string, names: set<string>, path: seq<nat>)
    ensures var d, r := DeclAt(ds, path), DeclAt(PrefixDecls(ds, prefix, names), path);
            r == if d.None? then None else Some(PrefixDecl(d.value, prefix, names))
    decreases |path|
  {
    PrefixedLength(ds, prefix, names);
    if path != [] && path[0] < |ds| {
      PrefixDeclsAt(ds, prefix, names, path[0]);
      if |path| > 1 && (ds[path[0]].Primitive? || ds[path[0]].Module?) {
        NestedAreRenamed(ds[path[0]].decls, prefix, names, path[1..]);
      }
    }
  }
}
