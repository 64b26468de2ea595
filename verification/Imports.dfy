/** internal/devlang/resolve.go: loading imported files and merging their declarations. `files`
    holds every file that can be read and parsed, by absolute path. */
module Imports {
  import opened Wrappers
  import opened Digraph
  import opened Rename

  type Files = map<string, seq<Decl>>

  // ---- The simple form: flattening without caches ----

  /** One imported declaration, as the importer takes it over. */
  function Taken(d: Decl, alias: string, names: set<string>): seq<Decl> {
    if d.Import? || d.Version? then []
    else if alias == "" then [d] else [PrefixDecl(d, alias, names)]
  }

  function Adopt(ds: seq<Decl>, alias: string, names: set<string>): seq<Decl> {
    if ds == [] then [] else Adopt(ds[..|ds| - 1], alias, names) + Taken(ds[|ds| - 1], alias, names)
  }

  /** The declarations of a file with its imports merged in; None when a file does not load or
      imports nest deeper than depth. */
  function Flatten(path: string, files: Files, depth: nat): Option<seq<Decl>>
    decreases depth, 0
  {
    if path !in files || depth == 0 then None else FlattenDecls(files[path], files, depth - 1)
  }

  function FlattenDecls(ds: seq<Decl>, files: Files, depth: nat): Option<seq<Decl>>
    decreases depth, |ds| + 1
  {
    if ds == [] then Some([])
    else
      match FlattenDecls(ds[..|ds| - 1], files, depth)
      case None => None
      case Some(front) =>
        var d := ds[|ds| - 1];
        if !d.Import? then Some(front + [d])
        else
          match Flatten(d.path, files, depth)
          case None => None
          case Some(imported) => Some(front + Adopt(imported, d.alias, CollectNames(imported)))
  }

  ghost predicate FlattensTo(path: string, files: Files, ds: seq<Decl>) {
    exists depth: nat :: Flatten(path, files, depth) == Some(ds)
  }

  ghost predicate Flattens(path: string, files: Files) {
    exists depth: nat :: Flatten(path, files, depth).Some?
  }

  ghost predicate DeclsFlattenTo(ds: seq<Decl>, files: Files, flat: seq<Decl>) {
    exists depth: nat :: FlattenDecls(ds, files, depth) == Some(flat)
  }

  lemma {:induction false} DeeperFlattenAgrees(path: string, files: Files, depth: nat, more: nat)
    requires depth <= more && Flatten(path, files, depth).Some?
    ensures Flatten(path, files, more) == Flatten(path, files, depth)
    decreases depth, 0
  {
    DeeperDeclsAgree(files[path], files, depth - 1, more - 1);
  }

  lemma {:induction false} DeeperDeclsAgree(ds: seq<Decl>, files: Files, depth: nat, more: nat)
    requires depth <= more && FlattenDecls(ds, files, depth).Some?
    ensures FlattenDecls(ds, files, more) == FlattenDecls(ds, files, depth)
    decreases depth, |ds| + 1
  {
    if ds != [] {
      DeeperDeclsAgree(ds[..|ds| - 1], files, depth, more);
      var d := ds[|ds| - 1];
      if d.Import? { DeeperFlattenAgrees(d.path, files, depth, more); }
    }
  }

  // ---- When a file flattens ----

  function ImportsOf(ds: seq<Decl>): seq<Id> {
    if ds == [] then [] else ImportsOf(ds[..|ds| - 1]) + (if ds[|ds| - 1].Import? then [ds[|ds| - 1].path] else [])
  }

  ghost function ImportGraph(files: Files): Graph {
    map p | p in files :: ImportsOf(files[p])
  }

  lemma {:induction false} FlatDeclsLoadImports(ds: seq<Decl>, files: Files, depth: nat, p: string)
    requires FlattenDecls(ds, files, depth).Some? && p in ImportsOf(ds)
    ensures Flatten(p, files, depth).Some?
  {
    if p in ImportsOf(ds[..|ds| - 1]) { FlatDeclsLoadImports(ds[..|ds| - 1], files, depth, p); }
  }

  lemma {:induction false} LoadedImportsFlatten(ds: seq<Decl>, files: Files, depth: nat)
    requires forall p :: p in ImportsOf(ds) ==> Flatten(p, files, depth).Some?
    ensures FlattenDecls(ds, files, depth).Some?
  {
    if ds != [] {
      LoadedImportsFlatten(ds[..|ds| - 1], files, depth);
      if ds[|ds| - 1].Import? { assert ds[|ds| - 1].path in ImportsOf(ds); }
    }
  }

  lemma ImportFlattens(path: string, p: string, files: Files, depth: nat)
    requires Flatten(path, files, depth).Some? && p in Succ(ImportGraph(files), path)
    ensures depth > 0 && Flatten(p, files, depth - 1).Some?
  {
    FlatDeclsLoadImports(files[path], files, depth - 1, p);
  }

  lemma {:induction false} CycleNeverFlattens(path: string, files: Files, depth: nat)
    requires Reaches(ImportGraph(files), path, path)
    ensures Flatten(path, files, depth).None?
    decreases depth
  {
    var p := CycleNext(ImportGraph(files), path);
    if depth > 0 { CycleNeverFlattens(p, files, depth - 1); }
    if Flatten(path, files, depth).Some? { ImportFlattens(path, p, files, depth); }
  }

  lemma {:induction false} WalkFlattens(w: seq<Id>, files: Files, depth: nat)
    requires IsWalk(ImportGraph(files), w) && Flatten(w[0], files, depth).Some?
    ensures Flattens(w[|w| - 1], files)
    decreases |w|
  {
    if |w| > 1 {
      ImportFlattens(w[0], w[1], files, depth);
      WalkFlattens(w[1..], files, depth - 1);
    }
  }

  ghost predicate ReachedFrom(path: string, q: string, files: Files) {
    q == path || Reaches(ImportGraph(files), path, q)
  }

  /** Every file reached from path loads, and none of them imports itself. */
  ghost predicate Loadable(path: string, files: Files) {
    forall q :: ReachedFrom(path, q, files) ==> q in files && !Reaches(ImportGraph(files), q, q)
  }

  /** The import graph restricted to what path reaches. */
  ghost function Below(path: string, files: Files): Graph {
    map p | p in files && ReachedFrom(path, p, files) :: ImportsOf(files[p])
  }

  lemma {:induction false} SubWalk(path: string, files: Files, w: seq<Id>)
    requires IsWalk(Below(path, files), w)
    ensures IsWalk(ImportGraph(files), w)
    decreases |w|
  {
    if |w| > 1 { SubWalk(path, files, w[1..]); }
  }

  lemma {:induction false} RankedFlattens(path: string, p: string, files: Files, rank: map<Id, nat>, depth: nat)
    requires Loadable(path, files) && ReachedFrom(path, p, files) && IsRanking(Below(path, files), rank)
    requires p in rank ==> rank[p] < depth
    requires depth > 0
    ensures Flatten(p, files, depth).Some?
    decreases depth
  {
    forall q | q in ImportsOf(files[p]) ensures Flatten(q, files, depth - 1).Some? {
      assert q in Succ(Below(path, files), p) && q in Succ(ImportGraph(files), p);
      EdgeDrops(Below(path, files), rank, p, q);
      EdgeReaches(ImportGraph(files), p, q);
      if p != path { ReachesTrans(ImportGraph(files), path, p, q); }
      RankedFlattens(path, q, files, rank, depth - 1);
    }
    LoadedImportsFlatten(files[p], files, depth - 1);
  }

  /** Flattening works exactly when every file reached loads and no import cycle is reached. */
  lemma FlattensIffLoadable(path: string, files: Files)
    ensures Flattens(path, files) <==> Loadable(path, files)
  {
    var g := ImportGraph(files);
    if depth: nat :| Flatten(path, files, depth).Some? {
      forall q | ReachedFrom(path, q, files) ensures q in files && !Reaches(g, q, q) {
        if q == path {
          assert IsWalk(g, [path]);
        } else {
          var w :| IsWalkBetween(g, w, path, q);
          WalkFlattens(w, files, depth);
        }
        var d: nat :| Flatten(q, files, d).Some?;
        if Reaches(g, q, q) { CycleNeverFlattens(q, files, d); }
      }
    }
    if Loadable(path, files) {
      var sub := Below(path, files);
      if !Acyclic(sub) {
        CyclicHasLoop(sub);
        var u :| Reaches(sub, u, u);
        var w :| IsWalkBetween(sub, w, u, u);
        SubWalk(path, files, w);
        assert IsWalkBetween(g, w, u, u);
        assert false;
      }
      var rank := AcyclicHasRanking(sub);
      var depth := Largest(rank) + 1;
      RankedFlattens(path, path, files, rank, depth);
    }
  }

  // ---- The resolver ----

  datatype ImportError = CannotLoad(path: string) | Circular(path: string)

  /** An error names a file that path reaches: one that cannot be loaded, or one that imports itself. */
  ghost predicate Real(path: string, err: ImportError, files: Files) {
    && ReachedFrom(path, err.path, files)
    && match err
       case CannotLoad(q) => q !in files
       case Circular(q) => Reaches(ImportGraph(files), q, q)
  }

  ghost predicate AllReal(path: string, errs: seq<ImportError>, files: Files) {
    forall k :: 0 <= k < |errs| ==> Real(path, errs[k], files)
  }

  method AdoptDecls(imported: seq<Decl>, alias: string) returns (taken: seq<Decl>)
    ensures taken == Adopt(imported, alias, CollectNames(imported))
  {
    taken := [];
    var names := CollectNames(imported);
    for i := 0 to |imported|
      invariant taken == Adopt(imported[..i], alias, names)
    {
      var d := imported[i];
      assert imported[..i + 1][..i] == imported[..i];
      if d.Import? || d.Version? {
      } else if alias != "" {
        taken := taken + [PrefixDecl(d, alias, names)];
      } else {
        taken := taken + [d];
      }
    }
    assert imported[..|imported|] == imported;
  }

  class ImportResolver {
    const files: Files
    var loaded: map<string, seq<Decl>>
    var resolved: map<string, seq<Decl>>
    var inProgress: set<string>

    constructor (files: Files)
      ensures this.files == files && Valid() && inProgress == {}
    {
      this.files, loaded, resolved, inProgress := files, map[], map[], {};
    }

    /** Both caches tell the truth. */
    ghost predicate Valid()
      reads this
    {
      && (forall p :: p in loaded ==> p in files && loaded[p] == files[p])
      && (forall p :: p in resolved ==> FlattensTo(p, files, resolved[p]))
    }

    method LoadFile(path: string) returns (file: Option<seq<Decl>>)
      requires Valid()
      modifies this`loaded
      ensures Valid()
      ensures file == if path in files then Some(files[path]) else None
    {
      if path in loaded { return Some(loaded[path]); }
      if path !in files { return None; }
      loaded := loaded[path := files[path]];
      file := Some(files[path]);
    }

    /** With or without help from the caches, the result is the uncached flattening; errors mean
        that there is none. Files being resolved are the ones that import this one. */
    method ResolveImports(path: string, file: seq<Decl>) returns (decls: seq<Decl>, errs: seq<ImportError>)
      requires Valid() && path in files && file == files[path]
      requires forall q :: q in inProgress ==> Reaches(ImportGraph(files), q, path)
      modifies this
      ensures Valid() && inProgress == old(inProgress)
      ensures errs == [] ==> FlattensTo(path, files, decls)
      ensures errs != [] ==> !Flattens(path, files)
      ensures AllReal(path, errs, files)
      decreases files.Keys - inProgress, |file| + 1
    {
      if path in resolved { return resolved[path], []; }
      if path in inProgress {
        NeverFlattens(path, files);
        return [], [Circular(path)];
      }
      ghost var outer := inProgress;
      inProgress := inProgress + {path};
      decls, errs := [], [];
      NothingFlattens(file, files);
      for i := 0 to |file|
        invariant Valid() && inProgress == outer + {path}
        invariant errs == [] ==> DeclsFlattenTo(file[..i], files, decls)
        invariant errs != [] ==> !Flattens(path, files)
        invariant AllReal(path, errs, files)
      {
        if file[i].Import? {
          var target := file[i].path;
          ImportReached(path, i, files, inProgress);
          if target in inProgress {
            BackEdge(path, target, files);
            inProgress := inProgress - {path};
            return [], [Circular(target)];
          }
          var imported := LoadFile(target);
          if imported.None? {
            BadImport(path, target, files);
            RealAbove(path, target, [CannotLoad(target)], files);
            errs := errs + [CannotLoad(target)];
          } else {
            var importedDecls, importedErrs := ResolveImports(target, imported.value);
            if importedErrs != [] {
              BadImport(path, target, files);
              RealAbove(path, target, importedErrs, files);
              errs := errs + importedErrs;
            } else {
              var taken := AdoptDecls(importedDecls, file[i].alias);
              if errs == [] { OneMoreImport(file, i, files, decls, importedDecls); }
              decls := decls + taken;
            }
          }
        } else {
          if errs == [] { OneMoreDecl(file, i, files, decls); }
          decls := decls + [file[i]];
        }
      }
      if errs == [] {
        WholeFile(path, files, decls);
        resolved := resolved[path := decls];
      }
      inProgress := inProgress - {path};
    }
  }

  lemma NeverFlattens(path: string, files: Files)
    requires Reaches(ImportGraph(files), path, path)
    ensures !Flattens(path, files)
  {
    forall depth: nat ensures Flatten(path, files, depth).None? { CycleNeverFlattens(path, files, depth); }
  }

  lemma {:induction false} ImportListed(ds: seq<Decl>, i: nat)
    requires i < |ds| && ds[i].Import?
    ensures ds[i].path in ImportsOf(ds)
  {
    if i < |ds| - 1 { ImportListed(ds[..|ds| - 1], i); }
  }

  lemma ImportIsEdge(path: string, i: nat, files: Files)
    requires path in files && i < |files[path]| && files[path][i].Import?
    ensures files[path][i].path in Succ(ImportGraph(files), path)
        && Reaches(ImportGraph(files), path, files[path][i].path)
  {
    ImportListed(files[path], i);
    EdgeReaches(ImportGraph(files), path, files[path][i].path);
  }

  lemma BadImport(path: string, target: string, files: Files)
    requires target in Succ(ImportGraph(files), path) && !Flattens(target, files)
    ensures !Flattens(path, files)
  {
    if depth: nat :| Flatten(path, files, depth).Some? { ImportFlattens(path, target, files, depth); }
  }

  lemma OneMoreDecl(file: seq<Decl>, i: nat, files: Files, flat: seq<Decl>)
    requires i < |file| && !file[i].Import? && DeclsFlattenTo(file[..i], files, flat)
    ensures DeclsFlattenTo(file[..i + 1], files, flat + [file[i]])
  {
    var depth: nat :| FlattenDecls(file[..i], files, depth) == Some(flat);
    assert file[..i + 1][..i] == file[..i];
    assert FlattenDecls(file[..i + 1], files, depth) == Some(flat + [file[i]]);
  }

  lemma OneMoreImport(file: seq<Decl>, i: nat, files: Files, flat: seq<Decl>, imported: seq<Decl>)
    requires i < |file| && file[i].Import? && DeclsFlattenTo(file[..i], files, flat)
        && FlattensTo(file[i].path, files, imported)
    ensures DeclsFlattenTo(file[..i + 1], files, flat + Adopt(imported, file[i].alias, CollectNames(imported)))
  {
    var d0: nat :| FlattenDecls(file[..i], files, d0) == Some(flat);
    var d1: nat :| Flatten(file[i].path, files, d1) == Some(imported);
    var depth := if d0 < d1 then d1 else d0;
    DeeperDeclsAgree(file[..i], files, d0, depth);
    DeeperFlattenAgrees(file[i].path, files, d1, depth);
    assert file[..i + 1][..i] == file[..i];
    assert FlattenDecls(file[..i + 1], files, depth)
        == Some(flat + Adopt(imported, file[i].alias, CollectNames(imported)));
  }

  lemma NothingFlattens(file: seq<Decl>, files: Files)
    ensures DeclsFlattenTo(file[..0], files, [])
  {
    assert FlattenDecls(file[..0], files, 0) == Some([]);
  }

  /** The file imported is reached from every file that waits for this one. */
  lemma ImportReached(path: string, i: nat, files: Files, waiting: set<string>)
    requires path in files && i < |files[path]| && files[path][i].Import?
    requires forall q :: q in waiting && q != path ==> Reaches(ImportGraph(files), q, path)
    ensures files[path][i].path in Succ(ImportGraph(files), path)
    ensures Reaches(ImportGraph(files), path, files[path][i].path)
    ensures forall q :: q in waiting ==> Reaches(ImportGraph(files), q, files[path][i].path)
  {
    ImportIsEdge(path, i, files);
    forall q | q in waiting ensures Reaches(ImportGraph(files), q, files[path][i].path) {
      if q != path { ReachesTrans(ImportGraph(files), q, path, files[path][i].path); }
    }
  }

  lemma RealAbove(path: string, target: string, errs: seq<ImportError>, files: Files)
    requires target in Succ(ImportGraph(files), path) && AllReal(target, errs, files)
    ensures AllReal(path, errs, files)
  {
    EdgeReaches(ImportGraph(files), path, target);
    forall k | 0 <= k < |errs| ensures Real(path, errs[k], files) {
      if errs[k].path != target { ReachesTrans(ImportGraph(files), path, target, errs[k].path); }
    }
  }

  lemma BackEdge(path: string, target: string, files: Files)
    requires Reaches(ImportGraph(files), path, target)
    requires target != path ==> Reaches(ImportGraph(files), target, path)
    ensures !Flattens(path, files) && Real(path, Circular(target), files)
  {
    if target != path { ReachesTrans(ImportGraph(files), target, path, target); }
    if target != path { ReachesTrans(ImportGraph(files), path, target, path); }
    NeverFlattens(path, files);
  }

  lemma WholeFile(path: string, files: Files, flat: seq<Decl>)
    requires path in files && DeclsFlattenTo(files[path][..|files[path]|], files, flat)
    ensures FlattensTo(path, files, flat)
  {
    assert files[path][..|files[path]|] == files[path];
    var depth: nat :| FlattenDecls(files[path], files, depth) == Some(flat);
    assert Flatten(path, files, depth + 1) == Some(flat);
  }

  /** ResolveFile: it succeeds if and only if every file reached loads and none imports itself,
      and then returns the flattening. */
  method ResolveFile(files: Files, path: string) returns (r: Result<seq<Decl>, seq<ImportError>>)
    ensures r.Ok? <==> Loadable(path, files)
    ensures r.Ok? ==> FlattensTo(path, files, r.value)
    ensures r.Err? ==> r.error != [] && AllReal(path, r.error, files)
  {
    FlattensIffLoadable(path, files);
    var resolver := new ImportResolver(files);
    var file := resolver.LoadFile(path);
    if file.None? { return Err([CannotLoad(path)]); }
    var decls, errs := resolver.ResolveImports(path, file.value);
    if errs != [] { return Err(errs); }
    ghost var d: nat :| Flatten(path, files, d) == Some(decls);
    r := Ok(decls);
  }

  lemma FlatteningIsUnique(path: string, files: Files, a: seq<Decl>, b: seq<Decl>)
    requires FlattensTo(path, files, a) && FlattensTo(path, files, b)
    ensures a == b
  {
    var d: nat :| Flatten(path, files, d) == Some(a);
    var e: nat :| Flatten(path, files, e) == Some(b);
    DeeperFlattenAgrees(path, files, d, if d < e then e else d);
    DeeperFlattenAgrees(path, files, e, if d < e then e else d);
  }

  // ---- What an importer takes over ----

  function Kept(ds: seq<Decl>): seq<Decl> {
    if ds == [] then []
    else
      var d := ds[|ds| - 1];
      Kept(ds[..|ds| - 1]) + if d.Import? || d.Version? then [] else [d]
  }

  lemma {:induction false} PrefixAppend(a: seq<Decl>, d: Decl, prefix: string, names: set<string>)
    ensures PrefixDecls(a + [d], prefix, names) == PrefixDecls(a, prefix, names) + [PrefixDecl(d, prefix, names)]
  {
    if a == [] {
      assert [] + [d] == [d];
    } else {
      assert (a + [d])[1..] == a[1..] + [d];
      PrefixAppend(a[1..], d, prefix, names);
    }
  }

  lemma {:induction false} NamesAppend(a: seq<Decl>, d: Decl)
    ensures CollectNames(a + [d]) == CollectNames(a) + NameOf(d)
  {
    if a == [] {
      assert [] + [d] == [d];
    } else {
      assert (a + [d])[1..] == a[1..] + [d];
      NamesAppend(a[1..], d);
    }
  }

  lemma {:induction false} KeptNames(ds: seq<Decl>)
    ensures CollectNames(Kept(ds)) == CollectNames(ds)
  {
    if ds != [] {
      var front, d := ds[..|ds| - 1], ds[|ds| - 1];
      KeptNames(front);
      NamesAppend(front, d);
      NamesAppend(Kept(front), d);
      assert front + [d] == ds;
      assert Kept(front) + [] == Kept(front);
    }
  }

  /** Import and version declarations never reach an importer; the rest does, in order, renamed
      when there is an alias. */
  lemma {:induction false} AdoptIsRenaming(ds: seq<Decl>, alias: string, names: set<string>)
    ensures Adopt(ds, alias, names) == if alias == "" then Kept(ds) else PrefixDecls(Kept(ds), alias, names)
    ensures CollectNames(Kept(ds)) == CollectNames(ds)
  {
    KeptNames(ds);
    if ds != [] {
      var front, d := ds[..|ds| - 1], ds[|ds| - 1];
      AdoptIsRenaming(front, alias, names);
      AdoptOneMore(Adopt(front, alias, names), Kept(front), d, alias, names);
    }
  }

  lemma AdoptOneMore(adopted: seq<Decl>, kept: seq<Decl>, d: Decl, alias: string, names: set<string>)
    requires adopted == if alias == "" then kept else PrefixDecls(kept, alias, names)
    ensures var next := kept + if d.Import? || d.Version? then [] else [d];
            adopted + Taken(d, alias, names) == if alias == "" then next else PrefixDecls(next, alias, names)
  {
    PrefixAppend(kept, d, alias, names);
    assert kept + [] == kept && adopted + [] == adopted;
  }
}
