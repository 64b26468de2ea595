/** internal/devlang/lower.go: when function expansion returns. Expansion has no cycle check, so
    everything depends on which bodies it opens while it works through a body. */
module FunctionReturns {
  import opened Wrappers
  import opened Digraph
  import opened Expr
  import opened Functions

  // ---- The demands of a body ----

  /** A body as expansion can open it: by a bare name, or by a call whose first `given` parameters
      get an argument. */
  datatype Spot = ByName(f: string) | ByCall(f: string, given: nat)

  function Code(s: Spot): Id
    decreases if s.ByCall? then s.given else 0
  {
    match s
    case ByName(f) => "=" + f
    case ByCall(f, given) => if given == 0 then ":" + f else "|" + Code(ByCall(f, given - 1))
  }

  function Decode(c: Id): Spot {
    if c == "" || c[0] == '=' then ByName(if c == "" then c else c[1..])
    else if c[0] == '|' then (var s := Decode(c[1..]); ByCall(s.f, if s.ByCall? then s.given + 1 else 0))
    else ByCall(c[1..], 0)
  }

  lemma {:induction false} DecodeCode(s: Spot)
    ensures Decode(Code(s)) == s
    decreases if s.ByCall? then s.given else 0
  {
    match s
    case ByName(f) => assert Code(s)[1..] == f;
    case ByCall(f, given) =>
      if given == 0 {
        assert Code(s)[1..] == f;
      } else {
        DecodeCode(ByCall(f, given - 1));
        assert Code(s)[1..] == Code(ByCall(f, given - 1));
      }
  }

  /** The parameters that get an argument. */
  function Bound(params: seq<string>, given: nat): set<string> {
    if params == [] || given == 0 then {} else {params[0]} + Bound(params[1..], given - 1)
  }

  lemma {:induction false} BindBound(params: seq<string>, args: seq<Expr>)
    ensures Bind(params, args).Keys == Bound(params, |args|)
    decreases |params|
  {
    if params != [] && args != [] { BindBound(params[1..], args[1..]); }
  }

  /** What expanding e opens: its calls, their used arguments, and its bare names. */
  function ExpandSpots(e: Expr, funcs: Funcs): seq<Id>
    decreases e
  {
    match e
    case Call(f, args) =>
      if f in funcs then
        [Code(ByCall(f, |Used(funcs[f].params, args)|))] + ExpandSpotsAll(args, |Used(funcs[f].params, args)|, funcs)
      else ExpandSpotsAll(args, |args|, funcs)
    case Ident(x) => if ZeroArg(funcs, x) then [Code(ByName(x))] else []
    case Bin(l, _, r) => ExpandSpots(l, funcs) + ExpandSpots(r, funcs)
    case Cond(c, y, n) => ExpandSpots(c, funcs) + ExpandSpots(y, funcs) + ExpandSpots(n, funcs)
    case List(es) => ExpandSpotsAll(es, |es|, funcs)
    case _ => []
  }

  /** The same for the first k of es. */
  function ExpandSpotsAll(es: seq<Expr>, k: nat, funcs: Funcs): seq<Id>
    decreases es
  {
    if es == [] || k == 0 then [] else ExpandSpots(es[0], funcs) + ExpandSpotsAll(es[1..], k - 1, funcs)
  }

  /** What substituting into e opens: the calls at any depth and, once they are substituted, the
      bare names in their used arguments. Bare names outside a call are left alone. */
  function SubstSpots(e: Expr, bound: set<string>, funcs: Funcs): seq<Id>
    decreases e
  {
    match e
    case Call(f, args) =>
      SubstSpotsAll(args, bound, funcs) +
      (if f in funcs then
         [Code(ByCall(f, |Used(funcs[f].params, args)|))] +
         LeftSpotsAll(args, |Used(funcs[f].params, args)|, bound, funcs)
       else LeftSpotsAll(args, |args|, bound, funcs))
    case Bin(l, _, r) => SubstSpots(l, bound, funcs) + SubstSpots(r, bound, funcs)
    case Cond(c, y, n) => SubstSpots(c, bound, funcs) + SubstSpots(y, bound, funcs) + SubstSpots(n, bound, funcs)
    case List(es) => SubstSpotsAll(es, bound, funcs)
    case _ => []
  }

  function SubstSpotsAll(es: seq<Expr>, bound: set<string>, funcs: Funcs): seq<Id>
    decreases es
  {
    if es == [] then [] else SubstSpots(es[0], bound, funcs) + SubstSpotsAll(es[1..], bound, funcs)
  }

  /** The bare names substitution leaves in e. */
  function LeftSpots(e: Expr, bound: set<string>, funcs: Funcs): seq<Id>
    decreases e
  {
    match e
    case Ident(x) => if ZeroArg(funcs, x) && x !in bound then [Code(ByName(x))] else []
    case Bin(l, _, r) => LeftSpots(l, bound, funcs) + LeftSpots(r, bound, funcs)
    case Cond(c, y, n) => LeftSpots(c, bound, funcs) + LeftSpots(y, bound, funcs) + LeftSpots(n, bound, funcs)
    case List(es) => LeftSpotsAll(es, |es|, bound, funcs)
    case _ => []
  }

  function LeftSpotsAll(es: seq<Expr>, k: nat, bound: set<string>, funcs: Funcs): seq<Id>
    decreases es
  {
    if es == [] || k == 0 then [] else LeftSpots(es[0], bound, funcs) + LeftSpotsAll(es[1..], k - 1, bound, funcs)
  }

  function Demands(s: Spot, funcs: Funcs): seq<Id> {
    if s.f !in funcs then []
    else if s.ByCall? then SubstSpots(funcs[s.f].body, Bound(funcs[s.f].params, s.given), funcs)
    else if ZeroArg(funcs, s.f) then ExpandSpots(funcs[s.f].body, funcs)
    else []
  }

  ghost function Spots(funcs: Funcs): set<Id> {
    (set f | f in funcs :: Code(ByName(f))) +
    (set f, k | f in funcs && 0 <= k <= |funcs[f].params| :: Code(ByCall(f, k)))
  }

  /** Which bodies are opened while a body is expanded. */
  ghost function DemandGraph(funcs: Funcs): Graph {
    map c | c in Spots(funcs) :: Demands(Decode(c), funcs)
  }

  // ---- A cycle of demands never returns ----

  ghost predicate SpotNever(s: Spot, funcs: Funcs, depth: nat) {
    && s.f in funcs
    && match s
       case ByName(f) => Expand(funcs[f].body, funcs, depth).None?
       case ByCall(f, given) =>
         forall env: Bindings :: env.Keys == Bound(funcs[f].params, given) ==>
             Subst(funcs[f].body, env, funcs, depth).None?
  }

  ghost predicate NeverBelow(c: Id, funcs: Funcs, depth: nat) {
    depth > 0 ==> SpotNever(Decode(c), funcs, depth - 1)
  }

  lemma {:induction false} ExpandDemandNever(e: Expr, c: Id, funcs: Funcs, depth: nat)
    requires c in ExpandSpots(e, funcs) && NeverBelow(c, funcs, depth)
    ensures Expand(e, funcs, depth).None?
    decreases e
  {
    match e
    case Call(f, args) =>
      var used := if f in funcs then Used(funcs[f].params, args) else args;
      if c in ExpandSpotsAll(args, |used|, funcs) {
        ExpandDemandsNever(args, |used|, c, funcs, depth);
        assert args[..|used|] == used;
      } else {
        CallNever(f, args, c, funcs, depth);
      }
    case Bin(l, _, r) => ExpandDemandNever(if c in ExpandSpots(l, funcs) then l else r, c, funcs, depth);
    case Cond(t, y, n) =>
      ExpandDemandNever(if c in ExpandSpots(t, funcs) then t else if c in ExpandSpots(y, funcs) then y else n,
          c, funcs, depth);
    case List(es) =>
      ExpandDemandsNever(es, |es|, c, funcs, depth);
      assert es[..|es|] == es;
    case Ident(x) => DecodeCode(ByName(x));
    case _ =>
  }

  lemma {:induction false} ExpandDemandsNever(es: seq<Expr>, k: nat, c: Id, funcs: Funcs, depth: nat)
    requires c in ExpandSpotsAll(es, k, funcs) && NeverBelow(c, funcs, depth) && k <= |es|
    ensures ExpandAll(es[..k], funcs, depth).None?
    decreases es
  {
    if c in ExpandSpots(es[0], funcs) {
      ExpandDemandNever(es[0], c, funcs, depth);
    } else {
      ExpandDemandsNever(es[1..], k - 1, c, funcs, depth);
      assert es[..k][1..] == es[1..][..k - 1];
    }
  }

  lemma {:induction false} ExpandAllLength(es: seq<Expr>, funcs: Funcs, depth: nat)
    ensures ExpandAll(es, funcs, depth).Some? ==> |ExpandAll(es, funcs, depth).value| == |es|
    decreases |es|
  {
    if es != [] { ExpandAllLength(es[1..], funcs, depth); }
  }

  lemma CallNever(f: string, args: seq<Expr>, c: Id, funcs: Funcs, depth: nat)
    requires f in funcs && c == Code(ByCall(f, |Used(funcs[f].params, args)|)) && NeverBelow(c, funcs, depth)
    ensures Expand(Call(f, args), funcs, depth).None?
  {
    var used := Used(funcs[f].params, args);
    DecodeCode(ByCall(f, |used|));
    ExpandAllLength(used, funcs, depth);
    var as' := ExpandAll(used, funcs, depth);
    if as'.Some? { BindBound(funcs[f].params, as'.value); }
  }

  /** A bare name that substitution leaves is opened when the result is expanded. */
  lemma {:induction false} LeftDemandNever(e: Expr, env: Bindings, c: Id, funcs: Funcs, depth: nat)
    requires c in LeftSpots(e, env.Keys, funcs) && NeverBelow(c, funcs, depth)
    ensures var s := Subst(e, env, funcs, depth);
            s.Some? ==> Expand(s.value, funcs, depth).None?
    decreases e
  {
    match e
    case Bin(l, _, r) => LeftDemandNever(if c in LeftSpots(l, env.Keys, funcs) then l else r, env, c, funcs, depth);
    case Cond(t, y, n) =>
      LeftDemandNever(
          if c in LeftSpots(t, env.Keys, funcs) then t else if c in LeftSpots(y, env.Keys, funcs) then y else n,
          env, c, funcs, depth);
    case List(es) =>
      LeftDemandsNever(es, |es|, env, c, funcs, depth);
      assert es[..|es|] == es;
    case Ident(x) => DecodeCode(ByName(x));
    case _ =>
  }

  lemma {:induction false} LeftDemandsNever(es: seq<Expr>, k: nat, env: Bindings, c: Id, funcs: Funcs, depth: nat)
    requires k <= |es| && c in LeftSpotsAll(es, k, env.Keys, funcs) && NeverBelow(c, funcs, depth)
    ensures var ss := SubstAll(es[..k], env, funcs, depth);
            ss.Some? ==> ExpandAll(ss.value, funcs, depth).None?
    decreases es
  {
    var rest := SubstAll(es[1..][..k - 1], env, funcs, depth);
    assert es[..k][1..] == es[1..][..k - 1];
    if c in LeftSpots(es[0], env.Keys, funcs) {
      LeftDemandNever(es[0], env, c, funcs, depth);
    } else {
      LeftDemandsNever(es[1..], k - 1, env, c, funcs, depth);
    }
  }

  lemma {:induction false} SubstDemandNever(e: Expr, env: Bindings, c: Id, funcs: Funcs, depth: nat)
    requires c in SubstSpots(e, env.Keys, funcs) && NeverBelow(c, funcs, depth)
    ensures Subst(e, env, funcs, depth).None?
    decreases e
  {
    match e
    case Call(f, args) =>
      if c in SubstSpotsAll(args, env.Keys, funcs) {
        SubstDemandsNever(args, env, c, funcs, depth);
      } else {
        SubstCallNever(f, args, env, c, funcs, depth);
      }
    case Bin(l, _, r) => SubstDemandNever(if c in SubstSpots(l, env.Keys, funcs) then l else r, env, c, funcs, depth);
    case Cond(t, y, n) =>
      SubstDemandNever(
          if c in SubstSpots(t, env.Keys, funcs) then t else if c in SubstSpots(y, env.Keys, funcs) then y else n,
          env, c, funcs, depth);
    case List(es) => SubstDemandsNever(es, env, c, funcs, depth);
    case _ =>
  }

  lemma SubstCallNever(f: string, args: seq<Expr>, env: Bindings, c: Id, funcs: Funcs, depth: nat)
    requires NeverBelow(c, funcs, depth)
    requires var k := if f in funcs then |Used(funcs[f].params, args)| else |args|;
             || c in LeftSpotsAll(args, k, env.Keys, funcs)
             || (f in funcs && c == Code(ByCall(f, k)))
    ensures Subst(Call(f, args), env, funcs, depth).None?
  {
    var as' := SubstAll(args, env, funcs, depth);
    if as'.Some? {
      var k := if f in funcs then |Used(funcs[f].params, args)| else |args|;
      SubstAllPrefix(args, k, env, funcs, depth);
      if c in LeftSpotsAll(args, k, env.Keys, funcs) {
        LeftDemandsNever(args, k, env, c, funcs, depth);
        assert as'.value[..|args|] == as'.value;
      } else {
        CallNever(f, as'.value, c, funcs, depth);
      }
    }
  }

  lemma {:induction false} SubstDemandsNever(es: seq<Expr>, env: Bindings, c: Id, funcs: Funcs, depth: nat)
    requires c in SubstSpotsAll(es, env.Keys, funcs) && NeverBelow(c, funcs, depth)
    ensures SubstAll(es, env, funcs, depth).None?
    decreases es
  {
    if c in SubstSpots(es[0], env.Keys, funcs) {
      SubstDemandNever(es[0], env, c, funcs, depth);
    } else {
      SubstDemandsNever(es[1..], env, c, funcs, depth);
    }
  }

  lemma {:induction false} CycleNeverReturns(c: Id, funcs: Funcs, depth: nat)
    requires Reaches(DemandGraph(funcs), c, c)
    ensures SpotNever(Decode(c), funcs, depth)
    decreases depth
  {
    var g := DemandGraph(funcs);
    var next := CycleNext(g, c);
    assert next in Demands(Decode(c), funcs);
    if depth > 0 { CycleNeverReturns(next, funcs, depth - 1); }
    DemandNever(Decode(c), next, funcs, depth);
  }

  lemma DemandNever(s: Spot, next: Id, funcs: Funcs, depth: nat)
    requires next in Demands(s, funcs) && NeverBelow(next, funcs, depth)
    ensures SpotNever(s, funcs, depth)
  {
    match s
    case ByName(f) => ExpandDemandNever(funcs[f].body, next, funcs, depth);
    case ByCall(f, given) =>
      forall env: Bindings | env.Keys == Bound(funcs[f].params, given)
        ensures Subst(funcs[f].body, env, funcs, depth).None?
      {
        SubstDemandNever(funcs[f].body, env, next, funcs, depth);
      }
  }

  /** For any program: where expansion returns on every expression, no body needs itself. */
  lemma ReturningIsAcyclic(funcs: Funcs, enough: nat)
    requires ReturnsWithin(funcs, enough)
    ensures Acyclic(DemandGraph(funcs))
  {
    var g := DemandGraph(funcs);
    if !Acyclic(g) {
      CyclicHasLoop(g);
      var c :| Reaches(g, c, c);
      var e := LoopNeverReturns(c, funcs, enough);
    }
  }

  lemma LoopNeverReturns(c: Id, funcs: Funcs, depth: nat) returns (e: Expr)
    requires Reaches(DemandGraph(funcs), c, c)
    ensures Expand(e, funcs, depth).None?
  {
    if depth > 0 { CycleNeverReturns(c, funcs, depth - 1); }
    OnALoop(c, funcs);
    e := Opener(c, funcs);
    ExpandDemandNever(e, c, funcs, depth);
  }

  lemma OnALoop(c: Id, funcs: Funcs)
    requires Reaches(DemandGraph(funcs), c, c)
    ensures c in Spots(funcs) && Demands(Decode(c), funcs) != []
  {
    var next := CycleNext(DemandGraph(funcs), c);
    assert next in Demands(Decode(c), funcs);
  }

  /** An expression that opens a given body at once. */
  lemma Opener(c: Id, funcs: Funcs) returns (e: Expr)
    requires c in Spots(funcs) && Demands(Decode(c), funcs) != []
    ensures c in ExpandSpots(e, funcs)
  {
    if f, k :| f in funcs && 0 <= k <= |funcs[f].params| && c == Code(ByCall(f, k)) {
      var args := seq(k, i => Str(""));
      assert |Used(funcs[f].params, args)| == k;
      e := Call(f, args);
    } else {
      var f :| f in funcs && c == Code(ByName(f));
      DecodeCode(ByName(f));
      e := Ident(f);
    }
  }

  // ---- Without a cycle every expansion returns ----

  ghost predicate Below(names: seq<Id>, rank: map<Id, nat>, depth: nat) {
    forall c :: c in names ==> c in rank && rank[c] < depth
  }

  ghost predicate RanksDemands(funcs: Funcs, rank: map<Id, nat>) {
    forall c :: c in rank && c in Spots(funcs) ==> Below(Demands(Decode(c), funcs), rank, rank[c])
  }

  lemma {:induction false} CleanOpensNothing(e: Expr, funcs: Funcs)
    requires Clean(e, funcs)
    ensures ExpandSpots(e, funcs) == []
    decreases e
  {
    match e
    case Call(f, args) => AllCleanOpenNothing(args, |args|, funcs);
    case List(es) => AllCleanOpenNothing(es, |es|, funcs);
    case Bin(l, _, r) =>
      CleanOpensNothing(l, funcs);
      CleanOpensNothing(r, funcs);
    case Cond(c, y, n) =>
      CleanOpensNothing(c, funcs);
      CleanOpensNothing(y, funcs);
      CleanOpensNothing(n, funcs);
    case _ =>
  }

  lemma {:induction false} AllCleanOpenNothing(es: seq<Expr>, k: nat, funcs: Funcs)
    requires AllClean(es, funcs)
    ensures ExpandSpotsAll(es, k, funcs) == []
    decreases es
  {
    if es != [] && k > 0 {
      CleanOpensNothing(es[0], funcs);
      AllCleanOpenNothing(es[1..], k - 1, funcs);
    }
  }

  /** Expanding what substitution left opens only the bare names it left. */
  lemma {:induction false} SubstLeaves(e: Expr, env: Bindings, funcs: Funcs, depth: nat)
    requires TightBodies(funcs) && CleanBindings(env, funcs) && Subst(e, env, funcs, depth).Some?
    ensures forall c :: c in ExpandSpots(Subst(e, env, funcs, depth).value, funcs) ==>
      c in LeftSpots(e, env.Keys, funcs)
    decreases e
  {
    match e
    case Call(f, args) =>
      ExpandClean(Call(f, SubstAll(args, env, funcs, depth).value), funcs, depth);
      CleanOpensNothing(Subst(e, env, funcs, depth).value, funcs);
    case Bin(l, _, r) =>
      SubstLeaves(l, env, funcs, depth);
      SubstLeaves(r, env, funcs, depth);
    case Cond(c, y, n) =>
      SubstLeaves(c, env, funcs, depth);
      SubstLeaves(y, env, funcs, depth);
      SubstLeaves(n, env, funcs, depth);
    case List(es) =>
      SubstAllPrefix(es, |es|, env, funcs, depth);
      SubstAllLeave(es, |es|, env, funcs, depth);
    case Ident(x) => if x in env { CleanOpensNothing(env[x], funcs); }
    case _ =>
  }

  lemma {:induction false} SubstAllLeave(es: seq<Expr>, k: nat, env: Bindings, funcs: Funcs, depth: nat)
    requires TightBodies(funcs) && CleanBindings(env, funcs) && SubstAll(es, env, funcs, depth).Some?
    ensures forall c :: c in ExpandSpotsAll(SubstAll(es, env, funcs, depth).value, k, funcs)
                    ==> c in LeftSpotsAll(es, k, env.Keys, funcs)
    decreases es
  {
    if es != [] && k > 0 {
      SubstLeaves(es[0], env, funcs, depth);
      SubstAllLeave(es[1..], k - 1, env, funcs, depth);
      var ss := SubstAll(es, env, funcs, depth).value;
      assert ss[1..] == SubstAll(es[1..], env, funcs, depth).value;
    }
  }

  lemma {:induction false} RankedExpandReturns(e: Expr, funcs: Funcs, rank: map<Id, nat>, depth: nat)
    requires TightBodies(funcs) && RanksDemands(funcs, rank) && Below(ExpandSpots(e, funcs), rank, depth)
    ensures Expand(e, funcs, depth).Some?
    decreases 2 * depth, e, 1
  {
    match e
    case Call(f, args) => RankedCallReturns(f, args, funcs, rank, depth);
    case Bin(l, _, r) =>
      RankedExpandReturns(l, funcs, rank, depth);
      RankedExpandReturns(r, funcs, rank, depth);
    case Cond(c, y, n) =>
      RankedExpandReturns(c, funcs, rank, depth);
      RankedExpandReturns(y, funcs, rank, depth);
      RankedExpandReturns(n, funcs, rank, depth);
    case List(es) =>
      RankedExpandAllReturns(es, |es|, funcs, rank, depth);
      assert es[..|es|] == es;
    case Ident(x) =>
      if ZeroArg(funcs, x) {
        DecodeCode(ByName(x));
        assert Code(ByName(x)) in ExpandSpots(e, funcs) && Code(ByName(x)) in Spots(funcs);
        RankedExpandReturns(funcs[x].body, funcs, rank, depth - 1);
      }
    case _ =>
  }

  lemma {:induction false} RankedCallReturns(f: string, args: seq<Expr>, funcs: Funcs, rank: map<Id, nat>, depth: nat)
    requires TightBodies(funcs) && RanksDemands(funcs, rank) && Below(ExpandSpots(Call(f, args), funcs), rank, depth)
    ensures Expand(Call(f, args), funcs, depth).Some?
    decreases 2 * depth, Call(f, args), 0
  {
    if f in funcs {
      var k := |Used(funcs[f].params, args)|;
      var c := Code(ByCall(f, k));
      CallSpots(f, args, funcs, c);
      RankedExpandAllReturns(args, k, funcs, rank, depth);
      RankedBodyReturns(f, ExpandAll(args[..k], funcs, depth).value, funcs, rank, depth - 1);
    } else {
      RankedExpandAllReturns(args, |args|, funcs, rank, depth);
      assert args[..|args|] == args;
    }
  }

  lemma CallSpots(f: string, args: seq<Expr>, funcs: Funcs, c: Id)
    requires f in funcs && c == Code(ByCall(f, |Used(funcs[f].params, args)|))
    ensures c in ExpandSpots(Call(f, args), funcs)
    ensures Used(funcs[f].params, args) == args[..|Used(funcs[f].params, args)|]
  {
    assert args[..|args|] == args;
  }

  lemma {:induction false} RankedExpandAllReturns(es: seq<Expr>, k: nat, funcs: Funcs, rank: map<Id, nat>, depth: nat)
    requires TightBodies(funcs) && RanksDemands(funcs, rank) && Below(ExpandSpotsAll(es, k, funcs), rank, depth)
    requires k <= |es|
    ensures var rs := ExpandAll(es[..k], funcs, depth);
            rs.Some? && AllClean(rs.value, funcs) && |rs.value| == k
    decreases 2 * depth, es, 1
  {
    if k > 0 {
      RankedExpandReturns(es[0], funcs, rank, depth);
      ExpandClean(es[0], funcs, depth);
      RankedExpandAllReturns(es[1..], k - 1, funcs, rank, depth);
      assert es[..k][1..] == es[1..][..k - 1];
    }
  }

  lemma {:induction false} RankedBodyReturns(f: string, as': seq<Expr>, funcs: Funcs, rank: map<Id, nat>, depth: nat)
    requires TightBodies(funcs) && RanksDemands(funcs, rank) && f in funcs && AllClean(as', funcs)
    requires |as'| <= |funcs[f].params|
    requires var c := Code(ByCall(f, |as'|)); c in rank && rank[c] <= depth
    ensures Subst(funcs[f].body, Bind(funcs[f].params, as'), funcs, depth).Some?
    decreases 2 * depth + 1, funcs[f].body, 1
  {
    DecodeCode(ByCall(f, |as'|));
    assert Code(ByCall(f, |as'|)) in Spots(funcs);
    BindBound(funcs[f].params, as');
    BindClean(funcs[f].params, as', funcs);
    RankedSubstReturns(funcs[f].body, Bind(funcs[f].params, as'), funcs, rank, depth);
  }

  lemma {:induction false} RankedSubstReturns(e: Expr, env: Bindings, funcs: Funcs, rank: map<Id, nat>, depth: nat)
    requires TightBodies(funcs) && RanksDemands(funcs, rank) && CleanBindings(env, funcs)
    requires Below(SubstSpots(e, env.Keys, funcs), rank, depth)
    ensures Subst(e, env, funcs, depth).Some?
    decreases 2 * depth + 1, e, 0
  {
    match e
    case Call(f, args) =>
      RankedSubstAllReturns(args, env, funcs, rank, depth);
      var as' := SubstAll(args, env, funcs, depth).value;
      SubstAllPrefix(args, |args|, env, funcs, depth);
      SubstAllLeave(args, if f in funcs then |Used(funcs[f].params, args)| else |args|, env, funcs, depth);
      RankedExpandReturns(Call(f, as'), funcs, rank, depth);
    case Bin(l, _, r) =>
      RankedSubstReturns(l, env, funcs, rank, depth);
      RankedSubstReturns(r, env, funcs, rank, depth);
    case Cond(c, y, n) =>
      RankedSubstReturns(c, env, funcs, rank, depth);
      RankedSubstReturns(y, env, funcs, rank, depth);
      RankedSubstReturns(n, env, funcs, rank, depth);
    case List(es) => RankedSubstAllReturns(es, env, funcs, rank, depth);
    case _ =>
  }

  lemma {:induction false} RankedSubstAllReturns(es: seq<Expr>, env: Bindings, funcs: Funcs, rank: map<Id, nat>,
      depth: nat)
    requires TightBodies(funcs) && RanksDemands(funcs, rank) && CleanBindings(env, funcs)
    requires Below(SubstSpotsAll(es, env.Keys, funcs), rank, depth)
    ensures SubstAll(es, env, funcs, depth).Some?
    decreases 2 * depth + 1, es, 0
  {
    if es != [] {
      RankedSubstReturns(es[0], env, funcs, rank, depth);
      RankedSubstAllReturns(es[1..], env, funcs, rank, depth);
    }
  }

  /** Every body opened belongs to the graph. */
  lemma {:induction false} OpenedAreSpots(e: Expr, funcs: Funcs)
    ensures forall c :: c in ExpandSpots(e, funcs) ==> c in Spots(funcs)
    decreases e
  {
    match e
    case Call(f, args) => AllOpenedAreSpots(args, if f in funcs then |Used(funcs[f].params, args)| else |args|, funcs);
    case Bin(l, _, r) =>
      OpenedAreSpots(l, funcs);
      OpenedAreSpots(r, funcs);
    case Cond(c, y, n) =>
      OpenedAreSpots(c, funcs);
      OpenedAreSpots(y, funcs);
      OpenedAreSpots(n, funcs);
    case List(es) => AllOpenedAreSpots(es, |es|, funcs);
    case _ =>
  }

  lemma {:induction false} AllOpenedAreSpots(es: seq<Expr>, k: nat, funcs: Funcs)
    ensures forall c :: c in ExpandSpotsAll(es, k, funcs) ==> c in Spots(funcs)
    decreases es
  {
    if es != [] && k > 0 {
      OpenedAreSpots(es[0], funcs);
      AllOpenedAreSpots(es[1..], k - 1, funcs);
    }
  }

  lemma AcyclicDemandsReturn(funcs: Funcs) returns (enough: nat)
    requires TightBodies(funcs) && Acyclic(DemandGraph(funcs))
    ensures ReturnsWithin(funcs, enough)
  {
    var g := DemandGraph(funcs);
    var rank := AcyclicHasRanking(g);
    enough := Largest(rank) + 1;
    forall c | c in rank && c in Spots(funcs) ensures Below(Demands(Decode(c), funcs), rank, rank[c]) {
      assert Succ(g, c) == Demands(Decode(c), funcs);
    }
    forall e ensures Expand(e, funcs, enough).Some? {
      OpenedAreSpots(e, funcs);
      RankedExpandReturns(e, funcs, rank, enough);
    }
  }

  /** Where no body has a zero-argument name outside a call's arguments, expansion returns on every
      expression if and only if no body needs itself, directly or through others. */
  lemma ExpansionReturnsIffAcyclic(funcs: Funcs)
    requires TightBodies(funcs)
    ensures (exists depth: nat :: ReturnsWithin(funcs, depth)) <==> Acyclic(DemandGraph(funcs))
  {
    if depth: nat :| ReturnsWithin(funcs, depth) {
      ReturningIsAcyclic(funcs, depth);
    }
    if Acyclic(DemandGraph(funcs)) {
      var enough := AcyclicDemandsReturn(funcs);
    }
  }

  // ---- A simpler check, for any program ----

  /** The user functions an expression mentions. */
  function Calls(e: Expr, funcs: Funcs): seq<Id>
    decreases e
  {
    match e
    case Call(f, args) => (if f in funcs then [f] else []) + CallsAll(args, funcs)
    case Ident(x) => if ZeroArg(funcs, x) then [x] else []
    case Bin(l, _, r) => Calls(l, funcs) + Calls(r, funcs)
    case Cond(c, y, n) => Calls(c, funcs) + Calls(y, funcs) + Calls(n, funcs)
    case List(es) => CallsAll(es, funcs)
    case _ => []
  }

  function CallsAll(es: seq<Expr>, funcs: Funcs): seq<Id>
    decreases es
  {
    if es == [] then [] else Calls(es[0], funcs) + CallsAll(es[1..], funcs)
  }

  lemma {:induction false} CallsAllPrefix(es: seq<Expr>, funcs: Funcs, k: nat)
    requires k <= |es|
    ensures forall f :: f in CallsAll(es[..k], funcs) ==> f in CallsAll(es, funcs)
    ensures k == |es| ==> es[..k] == es
  {
    if k > 0 {
      CallsAllPrefix(es[1..], funcs, k - 1);
      assert es[..k][1..] == es[1..][..k - 1];
    }
  }

  ghost function CallGraph(funcs: Funcs): Graph {
    map f | f in funcs :: Calls(funcs[f].body, funcs)
  }

  ghost predicate RanksBodies(funcs: Funcs, rank: map<Id, nat>) {
    forall f :: f in funcs && f in rank ==> Below(Calls(funcs[f].body, funcs), rank, rank[f])
  }

  /** An expansion that returned and mentions only functions ranked below depth. */
  ghost predicate Settled(r: Option<Expr>, funcs: Funcs, rank: map<Id, nat>, depth: nat) {
    r.Some? && Below(Calls(r.value, funcs), rank, depth)
  }

  ghost predicate AllSettled(rs: Option<seq<Expr>>, funcs: Funcs, rank: map<Id, nat>, depth: nat) {
    rs.Some? && Below(CallsAll(rs.value, funcs), rank, depth)
  }

  ghost predicate SettledBindings(env: Bindings, funcs: Funcs, rank: map<Id, nat>, depth: nat) {
    forall x :: x in env ==> Below(Calls(env[x], funcs), rank, depth)
  }

  /** Expansion lowers the rank of what is left, so it can be expanded again after substitution. */
  lemma {:induction false} ExpandSettles(e: Expr, funcs: Funcs, rank: map<Id, nat>, depth: nat)
    requires RanksBodies(funcs, rank) && Below(Calls(e, funcs), rank, depth)
    ensures Settled(Expand(e, funcs, depth), funcs, rank, if depth == 0 then 0 else depth - 1)
    decreases 2 * depth, e, 1
  {
    match e
    case Call(f, args) => CallSettles(f, args, funcs, rank, depth);
    case Bin(l, _, r) =>
      ExpandSettles(l, funcs, rank, depth);
      ExpandSettles(r, funcs, rank, depth);
    case Cond(c, y, n) =>
      ExpandSettles(c, funcs, rank, depth);
      ExpandSettles(y, funcs, rank, depth);
      ExpandSettles(n, funcs, rank, depth);
    case List(es) => ExpandAllSettles(es, funcs, rank, depth);
    case Ident(x) =>
      if ZeroArg(funcs, x) {
        assert x in Calls(e, funcs);
        ExpandSettles(funcs[x].body, funcs, rank, depth - 1);
      }
    case _ =>
  }

  lemma {:induction false} CallSettles(f: string, args: seq<Expr>, funcs: Funcs, rank: map<Id, nat>, depth: nat)
    requires RanksBodies(funcs, rank) && Below(Calls(Call(f, args), funcs), rank, depth)
    ensures Settled(Expand(Call(f, args), funcs, depth), funcs, rank, if depth == 0 then 0 else depth - 1)
    decreases 2 * depth, Call(f, args), 0
  {
    var used := if f in funcs then Used(funcs[f].params, args) else args;
    CallsAllPrefix(args, funcs, |used|);
    ExpandAllSettles(used, funcs, rank, depth);
    if f in funcs {
      assert f in Calls(Call(f, args), funcs);
      var as' := ExpandAll(used, funcs, depth).value;
      BindSettled(funcs[f].params, as', funcs, rank, depth - 1);
      SubstSettles(funcs[f].body, Bind(funcs[f].params, as'), funcs, rank, depth - 1);
    }
  }

  lemma {:induction false} BindSettled(params: seq<string>, args: seq<Expr>, funcs: Funcs, rank: map<Id, nat>,
      depth: nat)
    requires Below(CallsAll(args, funcs), rank, depth)
    ensures SettledBindings(Bind(params, args), funcs, rank, depth)
    decreases |params|
  {
    if params != [] && args != [] { BindSettled(params[1..], args[1..], funcs, rank, depth); }
  }

  lemma {:induction false} ExpandAllSettles(es: seq<Expr>, funcs: Funcs, rank: map<Id, nat>, depth: nat)
    requires RanksBodies(funcs, rank) && Below(CallsAll(es, funcs), rank, depth)
    ensures AllSettled(ExpandAll(es, funcs, depth), funcs, rank, if depth == 0 then 0 else depth - 1)
    decreases 2 * depth, es, 1
  {
    if es != [] {
      ExpandSettles(es[0], funcs, rank, depth);
      ExpandAllSettles(es[1..], funcs, rank, depth);
    }
  }

  lemma {:induction false} SubstSettles(e: Expr, env: Bindings, funcs: Funcs, rank: map<Id, nat>, depth: nat)
    requires RanksBodies(funcs, rank) && Below(Calls(e, funcs), rank, depth) && SettledBindings(env, funcs, rank, depth)
    ensures Settled(Subst(e, env, funcs, depth), funcs, rank, depth)
    decreases 2 * depth + 1, e, 0
  {
    match e
    case Call(f, args) =>
      SubstAllSettles(args, env, funcs, rank, depth);
      var as' := SubstAll(args, env, funcs, depth).value;
      ExpandSettles(Call(f, as'), funcs, rank, depth);
    case Bin(l, _, r) =>
      SubstSettles(l, env, funcs, rank, depth);
      SubstSettles(r, env, funcs, rank, depth);
    case Cond(c, y, n) =>
      SubstSettles(c, env, funcs, rank, depth);
      SubstSettles(y, env, funcs, rank, depth);
      SubstSettles(n, env, funcs, rank, depth);
    case List(es) => SubstAllSettles(es, env, funcs, rank, depth);
    case _ =>
  }

  lemma {:induction false} SubstAllSettles(es: seq<Expr>, env: Bindings, funcs: Funcs, rank: map<Id, nat>, depth: nat)
    requires RanksBodies(funcs, rank) && Below(CallsAll(es, funcs), rank, depth)
    requires SettledBindings(env, funcs, rank, depth)
    ensures AllSettled(SubstAll(es, env, funcs, depth), funcs, rank, depth)
    decreases 2 * depth + 1, es, 0
  {
    if es != [] {
      SubstSettles(es[0], env, funcs, rank, depth);
      SubstAllSettles(es[1..], env, funcs, rank, depth);
    }
  }

  lemma {:induction false} CallsAreNodes(e: Expr, funcs: Funcs)
    ensures forall f :: f in Calls(e, funcs) ==> f in funcs
    decreases e
  {
    match e
    case Call(f, args) => AllCallsAreNodes(args, funcs);
    case Bin(l, _, r) =>
      CallsAreNodes(l, funcs);
      CallsAreNodes(r, funcs);
    case Cond(c, y, n) =>
      CallsAreNodes(c, funcs);
      CallsAreNodes(y, funcs);
      CallsAreNodes(n, funcs);
    case List(es) => AllCallsAreNodes(es, funcs);
    case _ =>
  }

  lemma {:induction false} AllCallsAreNodes(es: seq<Expr>, funcs: Funcs)
    ensures forall f :: f in CallsAll(es, funcs) ==> f in funcs
    decreases es
  {
    if es != [] {
      CallsAreNodes(es[0], funcs);
      AllCallsAreNodes(es[1..], funcs);
    }
  }

  /** For any program, loose names included: if no function mentions itself, directly or through
      others, expansion returns on every expression. */
  lemma AcyclicCallsReturn(funcs: Funcs) returns (enough: nat)
    requires Acyclic(CallGraph(funcs))
    ensures ReturnsWithin(funcs, enough)
  {
    var g := CallGraph(funcs);
    var rank := AcyclicHasRanking(g);
    enough := Largest(rank) + 1;
    forall f, h | f in funcs && f in rank && h in Calls(funcs[f].body, funcs) ensures h in rank && rank[h] < rank[f] {
      assert h in Succ(g, f);
    }
    forall e ensures Expand(e, funcs, enough).Some? {
      CallsAreNodes(e, funcs);
      ExpandSettles(e, funcs, rank, enough);
    }
  }
}
