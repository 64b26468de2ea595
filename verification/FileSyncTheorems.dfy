/** The two laws of file.sync: Apply converges, and Rollback undoes Apply; each with the exact
    condition under which the code keeps it. */
module FileSyncTheorems {
  import opened Wrappers
  import opened FileTree
  import opened FileSync
  import opened FileSyncEffects

  /** One apply: a diff of two compatible trees, and any stream that sends each requested file
      at most once and all in one go. It may stop anywhere and carry any bytes. */
  ghost predicate Session(src: Tree, dest: Tree, hash: Hash, deleteExtra: bool, cs: ChangeSet, ds: seq<Delivery>,
      tail: seq<Item>) {
    && Compatible(src, dest) && IsDiff(Detect(src, hash), Detect(dest, hash), deleteExtra, cs)
    && (forall i, j :: 0 <= i < j < |ds| ==> ds[i].path != ds[j].path)
    && (forall i :: 0 <= i < |ds| ==> IsDelivery(ds[i]) && ds[i].path in Needed(cs))
    && Stops(tail)
  }

  /** Some file that already existed was overwritten or deleted. */
  ghost predicate TookSnapshot(dest: Tree, cs: ChangeSet, m: map<Path, Content>) {
    cs.delete != [] || exists q :: q in m && q in dest
  }

  /** What Apply leaves at a path other than the marker. */
  ghost predicate LeftAt(src: Tree, dest: Tree, cs: ChangeSet, m: map<Path, Content>, t: Tree, q: Path) {
    if q in m then q in t && t[q] == File(m[q])
    else if q in cs.delete then q !in t
    else if q in dest then q in t && t[q] == dest[q]
    else (q in t <==> q in src && src[q].Dir?) && (q in t ==> t[q].Dir?)
  }

  ghost predicate Shape(src: Tree, dest: Tree, cs: ChangeSet, m: map<Path, Content>, name: Content, w: Work) {
    && (forall q :: q != MARKER ==> LeftAt(src, dest, cs, m, w.dest, q))
    && (forall q :: q in w.snap && (w.snap[q].File? || q in dest) ==> q in dest && dest[q] == w.snap[q])
    && (forall q :: (q in m && q in dest) || q in cs.delete ==> IsFile(w.snap, q))
    && (w.snap != map[] <==> TookSnapshot(dest, cs, m))
    && (if w.snap != map[] then MARKER in w.dest && w.dest[MARKER] == File(name) else SameAt(w.dest, dest, MARKER))
  }

  lemma DiffKinds(src: Tree, dest: Tree, hash: Hash, deleteExtra: bool, cs: ChangeSet)
    requires Compatible(src, dest) && IsDiff(Detect(src, hash), Detect(dest, hash), deleteExtra, cs)
    ensures forall p :: p in cs.mkdir <==> p in src && src[p].Dir? && p !in dest
    ensures forall p :: p in cs.create <==> IsFile(src, p) && p !in dest
    ensures forall p :: p in cs.update <==>
      IsFile(src, p) && IsFile(dest, p) && Differs(MetaOf(src[p], hash), MetaOf(dest[p], hash))
    ensures forall p :: p in cs.delete <==> deleteExtra && IsFile(dest, p) && p !in src
  {
  }

  lemma MadeDirectories(src: Tree, dest: Tree, cs: ChangeSet, needs: set<Path>, ds: seq<Delivery>) returns (w: Work)
    requires Compatible(src, dest)
    requires forall p :: p in cs.mkdir <==> p in src && src[p].Dir? && p !in dest
    requires forall p :: p in needs ==> IsFile(src, p)
    requires forall i, j :: 0 <= i < j < |ds| ==> ds[i].path != ds[j].path
    requires forall i :: 0 <= i < |ds| ==> IsDelivery(ds[i]) && ds[i].path in needs
    ensures w == Mkdirs(Work(dest, map[], None, [], [], []), cs.mkdir)
    ensures Idle(w) && w.snap == map[] && w.failed == [] && w.applied == cs.mkdir
    ensures Grown(w.dest, src, dest) && (forall p :: p in src && src[p].Dir? ==> IsDir(w.dest, p))
    ensures Closed(w.dest) && Compatible(src, w.dest) && Deliverable(w.dest, needs, ds)
  {
    var w0 := Work(dest, map[], None, [], [], []);
    w := Mkdirs(w0, cs.mkdir);
    MkdirsEffect(w0, src, dest, cs.mkdir);
    GrownClosed(w.dest, src, dest);
    forall i | 0 <= i < |ds| ensures Ready(w.dest, ds[i].path) {
      assert IsFile(src, ds[i].path);
      assert IsDir(src, Parent(ds[i].path));
    }
  }

  lemma DeliveredFiles(w: Work, base: Tree, needs: set<Path>, ds: seq<Delivery>) returns (r: Work)
    requires w.dest == base && Closed(base) && w.snap == map[] && Deliverable(base, needs, ds)
    ensures r == DeliverAll(w, ds) && r.dest == Overlay(base, Carried(ds)) && r.failed == w.failed
    ensures r.applied == w.applied + Paths(ds)
    ensures Includes(base, r.snap)
    ensures forall q :: q in Carried(ds) && q in base ==> q in r.snap
    ensures (forall q :: q in Carried(ds) ==> q !in base) ==> r.snap == map[]
  {
    r := DeliverAll(w, ds);
    DeliverAllDest(w, needs, ds);
    forall i | 0 <= i < |ds| ensures ds[i].path != [] { assert IsDelivery(ds[i]); }
    DeliverAllPaths(w, ds);
    DeliverAllSnap(w, base, needs, ds);
    forall q | q in Carried(ds) && q in base ensures q in r.snap {
      CarriedOnly(ds, q);
    }
    if forall q :: q in Carried(ds) ==> q !in base {
      forall i | 0 <= i < |ds| ensures ds[i].path !in base {
        CarriedAt(ds, i);
      }
    }
  }

  lemma CarriedNeeded(needs: set<Path>, ds: seq<Delivery>)
    requires forall i :: 0 <= i < |ds| ==> ds[i].path in needs
    ensures Carried(ds).Keys <= needs
  {
    forall q | q in Carried(ds) ensures q in needs {
      CarriedOnly(ds, q);
    }
  }

  /** Apply from an empty snapshot directory, phase by phase. */
  lemma ApplyShape(src: Tree, dest: Tree, hash: Hash, deleteExtra: bool, cs: ChangeSet, ds: seq<Delivery>,
      tail: seq<Item>, name: Content)
    returns (w: Work)
    requires Session(src, dest, hash, deleteExtra, cs, ds, tail)
    ensures w == Applied(dest, map[], cs, Flat(ds) + tail, name)
    ensures Shape(src, dest, cs, Carried(ds), name, w)
    ensures w.failed == if tail != [] && tail[0].ReadError? then [CHUNK_STREAM] else []
    ensures w.applied == cs.mkdir + Paths(ds) + cs.delete
  {
    DiffKinds(src, dest, hash, deleteExtra, cs);
    var needs := Needed(cs);
    var w1 := MadeDirectories(src, dest, cs, needs, ds);
    var w4 := MovedFiles(src, dest, cs, needs, ds, tail, deleteExtra, w1);
    w := PutMarker(w4, name);
    CarriedNeeded(needs, ds);
    FinalShape(src, dest, cs, needs, w1, w4, w, Carried(ds), name, deleteExtra);
  }

  /** The answer after any session: success exactly if no read failed, and of the others a plain failure
      exactly if nothing at all was to be done before it. */
  lemma ApplyStatus(src: Tree, dest: Tree, hash: Hash, deleteExtra: bool, cs: ChangeSet, ds: seq<Delivery>,
      tail: seq<Item>, name: Content)
    requires Session(src, dest, hash, deleteExtra, cs, ds, tail)
    ensures var w := Applied(dest, map[], cs, Flat(ds) + tail, name);
            var readFailed := tail != [] && tail[0] == ReadError;
            var nothing := cs.mkdir == [] && ds == [] && cs.delete == [];
            && (StatusOf(w.applied, w.failed) == Success <==> !readFailed)
            && (StatusOf(w.applied, w.failed) == AllFailed <==> readFailed && nothing)
            && (StatusOf(w.applied, w.failed) == Partial <==> readFailed && !nothing)
  {
    var w := ApplyShape(src, dest, hash, deleteExtra, cs, ds, tail, name);
    assert Paths(ds) == [] <==> ds == [];
    assert w.applied == [] <==> cs.mkdir == [] && Paths(ds) == [] && cs.delete == [];
  }

  lemma ReceivedFiles(w: Work, needs: set<Path>, ds: seq<Delivery>, tail: seq<Item>) returns (r: Work)
    requires Idle(w) && Closed(w.dest) && w.snap == map[] && Deliverable(w.dest, needs, ds) && Stops(tail)
    ensures r == FinishFile(Chunks(w, needs, Flat(ds) + tail)).0 && r.dest == Overlay(w.dest, Carried(ds))
    ensures r.applied == w.applied + Paths(ds)
    ensures r.failed == w.failed + if tail != [] && tail[0].ReadError? then [CHUNK_STREAM] else []
    ensures Includes(w.dest, r.snap)
    ensures forall q :: q in Carried(ds) && q in w.dest ==> q in r.snap
    ensures (forall q :: q in Carried(ds) ==> q !in w.dest) ==> r.snap == map[]
  {
    var w2 := DeliveredFiles(w, w.dest, needs, ds);
    ChunksDeliver(w, w, needs, ds, tail);
    r := Ended(w2, tail);
  }

  /** The chunk loop and the deletions, after the directories are made. */
  lemma MovedFiles(src: Tree, dest: Tree, cs: ChangeSet, needs: set<Path>, ds: seq<Delivery>, tail: seq<Item>,
      deleteExtra: bool, w1: Work)
    returns (w4: Work)
    requires Compatible(src, dest) && Grown(w1.dest, src, dest) && Closed(w1.dest) && Idle(w1)
    requires w1.snap == map[] && w1.failed == [] && Deliverable(w1.dest, needs, ds) && Stops(tail)
    requires forall p :: p in needs ==> IsFile(src, p)
    requires Distinct(cs.delete) && forall p :: p in cs.delete <==> deleteExtra && IsFile(dest, p) && p !in src
    ensures w4 == Deletes(FinishFile(Chunks(w1, needs, Flat(ds) + tail)).0, cs.delete)
    ensures w4.applied == w1.applied + Paths(ds) + cs.delete
    ensures w4.failed == if tail != [] && tail[0].ReadError? then [CHUNK_STREAM] else []
    ensures Moved(cs, Carried(ds), w1, w4)
  {
    var w3 := ReceivedFiles(w1, needs, ds, tail);
    CarriedNeeded(needs, ds);
    StillThere(src, dest, cs, needs, w1.dest, w3.dest, Carried(ds), deleteExtra);
    DeletesEffect(w3, w1.dest, cs.delete);
    DeletesApplied(w3, cs.delete);
    w4 := Deletes(w3, cs.delete);
    AllMoved(cs, Carried(ds), w1, w3, w4);
  }

  lemma AllMoved(cs: ChangeSet, m: map<Path, Content>, w1: Work, w3: Work, w4: Work)
    requires w3.dest == Overlay(w1.dest, m) && w4.dest == w3.dest - Members(cs.delete) && Includes(w1.dest, w4.snap)
    requires forall q :: q in m && q in w1.dest ==> q in w3.snap
    requires (forall q :: q in m ==> q !in w1.dest) ==> w3.snap == map[]
    requires w3.snap.Keys + Members(cs.delete) <= w4.snap.Keys && (cs.delete == [] ==> w4.snap == w3.snap)
    ensures Moved(cs, m, w1, w4)
  {
    assert forall q :: q in cs.delete ==> q in Members(cs.delete);
  }

  /** What is to be deleted was neither touched nor hidden by the files delivered. */
  lemma StillThere(src: Tree, dest: Tree, cs: ChangeSet, needs: set<Path>, made: Tree, t: Tree, m: map<Path, Content>,
      deleteExtra: bool)
    requires Grown(made, src, dest) && t == Overlay(made, m) && m.Keys <= needs
    requires forall p :: p in needs ==> IsFile(src, p)
    requires forall p :: p in cs.delete <==> deleteExtra && IsFile(dest, p) && p !in src
    ensures forall p :: p in cs.delete ==> IsFile(made, p) && IsFile(t, p) && t[p] == made[p]
  {
  }

  ghost predicate Moved(cs: ChangeSet, m: map<Path, Content>, w1: Work, w4: Work) {
    && w4.dest == Overlay(w1.dest, m) - Members(cs.delete)
    && Includes(w1.dest, w4.snap)
    && (forall q :: (q in m && q in w1.dest) || q in cs.delete ==> q in w4.snap)
    && (w4.snap != map[] ==> cs.delete != [] || exists q :: q in m && q in w1.dest)
  }

  lemma FinalShape(src: Tree, dest: Tree, cs: ChangeSet, needs: set<Path>, w1: Work, w4: Work, w: Work,
                   m: map<Path, Content>, name: Content, deleteExtra: bool)
    requires Compatible(src, dest) && Grown(w1.dest, src, dest)
    requires forall p :: p in src && src[p].Dir? ==> IsDir(w1.dest, p)
    requires forall p :: p in needs ==> IsFile(src, p)
    requires forall p :: p in cs.delete <==> deleteExtra && IsFile(dest, p) && p !in src
    requires m.Keys <= needs && Moved(cs, m, w1, w4)
    requires w == PutMarker(w4, name)
    ensures Shape(src, dest, cs, m, name, w)
  {
    CarriedFiles(src, dest, cs, needs, w1, m, deleteExtra);
    assert CanCreate(w4.dest, MARKER) by { assert Parent(MARKER) == []; }
    FinalDest(src, dest, cs, w1, w4, w, m, name, deleteExtra);
    FinalSnap(src, dest, cs, w1.dest, w4.snap, m, deleteExtra);
  }

  lemma FinalSnap(src: Tree, dest: Tree, cs: ChangeSet, base: Tree, snap: Tree, m: map<Path, Content>,
      deleteExtra: bool)
    requires Grown(base, src, dest) && Includes(base, snap)
    requires forall q :: q in m ==> IsFile(src, q) && (q in base <==> q in dest) && (q in dest ==> dest[q].File?)
    requires forall p :: p in cs.delete <==> deleteExtra && IsFile(dest, p) && p !in src
    requires forall q :: (q in m && q in base) || q in cs.delete ==> q in snap
    requires snap != map[] ==> cs.delete != [] || exists q :: q in m && q in base
    ensures forall q :: q in snap && (snap[q].File? || q in dest) ==> q in dest && dest[q] == snap[q]
    ensures forall q :: (q in m && q in dest) || q in cs.delete ==> IsFile(snap, q)
    ensures snap != map[] <==> TookSnapshot(dest, cs, m)
  {
    if TookSnapshot(dest, cs, m) {
      assert cs.delete != [] ==> cs.delete[0] in cs.delete;
    }
  }

  lemma CarriedFiles(src: Tree, dest: Tree, cs: ChangeSet, needs: set<Path>, w1: Work, m: map<Path, Content>,
      deleteExtra: bool)
    requires Compatible(src, dest) && Grown(w1.dest, src, dest) && m.Keys <= needs
    requires forall p :: p in needs ==> IsFile(src, p)
    requires forall p :: p in cs.delete <==> deleteExtra && IsFile(dest, p) && p !in src
    ensures forall q :: q in m ==> IsFile(src, q) && q !in cs.delete && (q in w1.dest <==> q in dest) && q != MARKER
  {
  }

  lemma FinalDest(src: Tree, dest: Tree, cs: ChangeSet, w1: Work, w4: Work, w: Work, m: map<Path, Content>,
      name: Content, deleteExtra: bool)
    requires Compatible(src, dest) && Grown(w1.dest, src, dest)
    requires forall p :: p in src && src[p].Dir? ==> IsDir(w1.dest, p)
    requires forall q :: q in m ==> IsFile(src, q) && q !in cs.delete && q != MARKER
    requires forall p :: p in cs.delete <==> deleteExtra && IsFile(dest, p) && p !in src
    requires w4.dest == Overlay(w1.dest, m) - Members(cs.delete) && w == PutMarker(w4, name)
    ensures forall q :: q != MARKER ==> LeftAt(src, dest, cs, m, w.dest, q)
  {
    forall q | q != MARKER ensures LeftAt(src, dest, cs, m, w.dest, q) {
      assert q in w.dest <==> q in w4.dest;
      assert q in w4.dest <==> (q in w1.dest || q in m) && q !in cs.delete;
    }
  }

  // ---- Convergence ----

  ghost predicate EmptyFile(t: Tree, p: Path) {
    IsFile(t, p) && t[p].content == []
  }

  lemma {:induction false} CompleteCarries(src: Tree, paths: seq<Path>, ds: seq<Delivery>)
    requires Complete(src, paths, ds) && Distinct(paths)
    ensures forall p :: p in Carried(ds) <==> p in paths && !EmptyFile(src, p)
    ensures forall p :: p in Carried(ds) ==> IsFile(src, p) && Carried(ds)[p] == src[p].content
    ensures forall i :: 0 <= i < |ds| ==> IsDelivery(ds[i]) && ds[i].path in paths
    ensures forall i, j :: 0 <= i < j < |ds| ==> ds[i].path != ds[j].path
    decreases |paths|
  {
    if paths != [] {
      var p, rest := paths[0], paths[1..];
      assert paths == [p] + rest;
      assert p !in rest;
      if src[p].content == [] {
        CompleteCarries(src, rest, ds);
      } else {
        CompleteCarries(src, rest, ds[1..]);
        PathsApart(ds, rest);
      }
    }
  }

  lemma PathsApart(ds: seq<Delivery>, rest: seq<Path>)
    requires ds != [] && IsDelivery(ds[0]) && ds[0].path !in rest
    requires forall i :: 0 <= i < |ds[1..]| ==> IsDelivery(ds[1..][i]) && ds[1..][i].path in rest
    requires forall i, j :: 0 <= i < j < |ds[1..]| ==> ds[1..][i].path != ds[1..][j].path
    ensures forall i :: 0 <= i < |ds| ==> IsDelivery(ds[i]) && (ds[i].path == ds[0].path || ds[i].path in rest)
    ensures forall i, j :: 0 <= i < j < |ds| ==> ds[i].path != ds[j].path
  {
    assert forall i :: 0 < i < |ds| ==> ds[i] == ds[1..][i - 1];
  }

  lemma RequestsDistinct(src: Tree, dest: Tree, hash: Hash, deleteExtra: bool, cs: ChangeSet)
    requires IsDiff(Detect(src, hash), Detect(dest, hash), deleteExtra, cs)
    ensures Distinct(cs.create + cs.update)
  {
    forall i, j | 0 <= i < j < |cs.create + cs.update|
      ensures (cs.create + cs.update)[i] != (cs.create + cs.update)[j]
    {
      if i < |cs.create| <= j {
        assert cs.create[i] in cs.create && cs.update[j - |cs.create|] in cs.update;
      }
    }
  }

  /** Apply fed the whole stream delivers every requested nonempty file byte for byte, and a
      second Diff is empty exactly when no requested file is empty: an empty file has no chunk,
      so it is never created or truncated. */
  lemma ApplyConverges(src: Tree, dest: Tree, hash: Hash, deleteExtra: bool, cs: ChangeSet, ds: seq<Delivery>,
                       name: Content, again: ChangeSet)
    requires Compatible(src, dest) && IsDiff(Detect(src, hash), Detect(dest, hash), deleteExtra, cs)
    requires Complete(src, cs.create + cs.update, ds)
    requires IsDiff(Detect(src, hash), Detect(Applied(dest, map[], cs, Flat(ds) + [SENTINEL], name).dest, hash), false,
        again)
    ensures var w := Applied(dest, map[], cs, Flat(ds) + [SENTINEL], name);
            && w.failed == []
            && (forall p :: p in Needed(cs) && !EmptyFile(src, p) ==> p in w.dest && w.dest[p] == src[p])
    ensures IsEmpty(again) <==> forall p :: p in Needed(cs) ==> !EmptyFile(src, p)
  {
    var w := WholeApply(src, dest, hash, deleteExtra, cs, ds, name);
    SecondDiff(src, dest, hash, deleteExtra, cs, Carried(ds), name, w, false, again);
    NothingEmpty(src, cs, again);
  }

  /** Apply fed a complete stream. */
  lemma WholeApply(src: Tree, dest: Tree, hash: Hash, deleteExtra: bool, cs: ChangeSet, ds: seq<Delivery>,
      name: Content)
    returns (w: Work)
    requires Compatible(src, dest) && IsDiff(Detect(src, hash), Detect(dest, hash), deleteExtra, cs)
    requires Complete(src, cs.create + cs.update, ds)
    ensures w == Applied(dest, map[], cs, Flat(ds) + [SENTINEL], name) && w.failed == []
    ensures Shape(src, dest, cs, Carried(ds), name, w)
    ensures CarriesNeeded(src, cs, Carried(ds))
    ensures forall p :: p in Needed(cs) && !EmptyFile(src, p) ==> p in w.dest && w.dest[p] == src[p]
  {
    CompleteSession(src, dest, hash, deleteExtra, cs, ds);
    w := ApplyShape(src, dest, hash, deleteExtra, cs, ds, [SENTINEL], name);
    DeliveredExactly(src, dest, cs, Carried(ds), w);
  }

  lemma CompleteSession(src: Tree, dest: Tree, hash: Hash, deleteExtra: bool, cs: ChangeSet, ds: seq<Delivery>)
    requires Compatible(src, dest) && IsDiff(Detect(src, hash), Detect(dest, hash), deleteExtra, cs)
    requires Complete(src, cs.create + cs.update, ds)
    ensures Session(src, dest, hash, deleteExtra, cs, ds, [SENTINEL])
    ensures CarriesNeeded(src, cs, Carried(ds))
  {
    RequestsDistinct(src, dest, hash, deleteExtra, cs);
    NeededCarried(src, cs, ds);
  }

  ghost predicate CarriesNeeded(src: Tree, cs: ChangeSet, m: map<Path, Content>) {
    && (forall p :: p in m <==> p in Needed(cs) && !EmptyFile(src, p))
    && (forall p :: p in m ==> IsFile(src, p) && m[p] == src[p].content)
  }

  lemma NeededCarried(src: Tree, cs: ChangeSet, ds: seq<Delivery>)
    requires Distinct(cs.create + cs.update) && Complete(src, cs.create + cs.update, ds)
    ensures CarriesNeeded(src, cs, Carried(ds))
    ensures forall i :: 0 <= i < |ds| ==> IsDelivery(ds[i]) && ds[i].path in Needed(cs)
    ensures forall i, j :: 0 <= i < j < |ds| ==> ds[i].path != ds[j].path
  {
    CompleteCarries(src, cs.create + cs.update, ds);
    assert forall p :: p in Needed(cs) <==> p in cs.create + cs.update;
  }

  lemma DeliveredExactly(src: Tree, dest: Tree, cs: ChangeSet, m: map<Path, Content>, w: Work)
    requires MARKER !in src && forall p :: p in m ==> IsFile(src, p) && m[p] == src[p].content
    requires forall q :: q != MARKER ==> LeftAt(src, dest, cs, m, w.dest, q)
    ensures forall p :: p in m ==> p in src && p in w.dest && w.dest[p] == src[p]
  {
    forall p | p in m ensures p in w.dest && w.dest[p] == src[p] {
      assert LeftAt(src, dest, cs, m, w.dest, p);
    }
  }

  lemma NoMembers<T>(s: seq<T>)
    ensures s == [] <==> forall x :: x !in s
  {
    if s != [] { assert s[0] in s; }
  }

  lemma NothingEmpty(src: Tree, cs: ChangeSet, again: ChangeSet)
    requires forall p :: p in again.create <==> p in cs.create && EmptyFile(src, p)
    requires forall p :: p in again.update <==> p in cs.update && EmptyFile(src, p)
    ensures again.create == again.update == [] <==> forall p :: p in Needed(cs) ==> !EmptyFile(src, p)
  {
    NoMembers(again.create);
    NoMembers(again.update);
    assert forall p :: p in Needed(cs) <==> p in cs.create || p in cs.update;
  }

  /** What a second Diff finds: exactly the requested files that are empty in the source, and
      with deleteExtra the marker, if a snapshot was taken. */
  lemma SecondDiff(src: Tree, dest: Tree, hash: Hash, deleteExtra: bool, cs: ChangeSet, m: map<Path, Content>,
      name: Content, w: Work, deleteAgain: bool, again: ChangeSet)
    requires Compatible(src, dest) && IsDiff(Detect(src, hash), Detect(dest, hash), deleteExtra, cs)
    requires Shape(src, dest, cs, m, name, w)
    requires CarriesNeeded(src, cs, m)
    requires IsDiff(Detect(src, hash), Detect(w.dest, hash), deleteAgain, again)
    ensures again.mkdir == []
    ensures forall p :: p in again.create <==> p in cs.create && EmptyFile(src, p)
    ensures forall p :: p in again.update <==> p in cs.update && EmptyFile(src, p)
    ensures forall p :: p in again.delete && p != MARKER ==> deleteAgain && !deleteExtra && IsFile(dest, p) && p !in src
    ensures MARKER in again.delete <==> deleteAgain && MARKER in w.dest
    ensures !deleteAgain ==> again.delete == []
  {
    DiffKinds(src, dest, hash, deleteExtra, cs);
    AgainKinds(src, w.dest, hash, deleteAgain, again);
    forall p ensures p !in again.mkdir { assert p != MARKER ==> LeftAt(src, dest, cs, m, w.dest, p); }
    NoMembers(again.mkdir);
    NoMembers(again.delete);
    SecondRequests(src, dest, hash, deleteExtra, cs, m, name, w, deleteAgain, again);
    forall p | p in again.delete && p != MARKER ensures deleteAgain && !deleteExtra && IsFile(dest, p) && p !in src {
      assert LeftAt(src, dest, cs, m, w.dest, p);
    }
  }

  lemma SecondRequests(src: Tree, dest: Tree, hash: Hash, deleteExtra: bool, cs: ChangeSet, m: map<Path, Content>,
      name: Content, w: Work, deleteAgain: bool, again: ChangeSet)
    requires Compatible(src, dest) && IsDiff(Detect(src, hash), Detect(dest, hash), deleteExtra, cs)
    requires Shape(src, dest, cs, m, name, w)
    requires CarriesNeeded(src, cs, m)
    requires IsDiff(Detect(src, hash), Detect(w.dest, hash), deleteAgain, again)
    ensures forall p :: p in again.create <==> p in cs.create && EmptyFile(src, p)
    ensures forall p :: p in again.update <==> p in cs.update && EmptyFile(src, p)
  {
    DiffKinds(src, dest, hash, deleteExtra, cs);
    AgainKinds(src, w.dest, hash, deleteAgain, again);
    forall p | p != MARKER
      ensures p in again.create <==> p in cs.create && EmptyFile(src, p)
      ensures p in again.update <==> p in cs.update && EmptyFile(src, p)
    {
      assert LeftAt(src, dest, cs, m, w.dest, p);
    }
  }

  lemma AgainKinds(src: Tree, t: Tree, hash: Hash, deleteExtra: bool, cs: ChangeSet)
    requires IsDiff(Detect(src, hash), Detect(t, hash), deleteExtra, cs)
    ensures forall p :: p in cs.mkdir <==> p in src && src[p].Dir? && p !in t
    ensures forall p :: p in cs.create <==> IsFile(src, p) && p !in t
    ensures forall p :: p in cs.update <==>
      IsFile(src, p) && p in t && Differs(MetaOf(src[p], hash), MetaOf(t[p], hash))
    ensures forall p :: p in cs.delete <==> deleteExtra && IsFile(t, p) && p !in src
  {
  }

  /** With deleteExtra, at most the marker is left to delete, and only after a snapshot. */
  lemma ApplyConvergesWithDelete(src: Tree, dest: Tree, hash: Hash, cs: ChangeSet, ds: seq<Delivery>, name: Content,
      again: ChangeSet)
    requires Compatible(src, dest) && IsDiff(Detect(src, hash), Detect(dest, hash), true, cs)
    requires Complete(src, cs.create + cs.update, ds)
    requires IsDiff(Detect(src, hash), Detect(Applied(dest, map[], cs, Flat(ds) + [SENTINEL], name).dest, hash), true,
        again)
    ensures forall p :: p in again.delete <==> p == MARKER && TookSnapshot(dest, cs, Carried(ds))
    ensures again.mkdir == []
    ensures again.create == again.update == [] <==> forall p :: p in Needed(cs) ==> !EmptyFile(src, p)
  {
    var w := WholeApply(src, dest, hash, true, cs, ds, name);
    SecondDiff(src, dest, hash, true, cs, Carried(ds), name, w, true, again);
    MarkerListed(src, dest, hash, cs);
    LeftToDelete(dest, cs, Carried(ds), w, again);
    NothingEmpty(src, cs, again);
  }

  lemma LeftToDelete(dest: Tree, cs: ChangeSet, m: map<Path, Content>, w: Work, again: ChangeSet)
    requires w.snap != map[] <==> TookSnapshot(dest, cs, m)
    requires if w.snap != map[] then MARKER in w.dest else SameAt(w.dest, dest, MARKER)
    requires MARKER in dest ==> cs.delete != []
    requires forall p :: p in again.delete ==> p == MARKER
    requires MARKER in again.delete <==> MARKER in w.dest
    ensures forall p :: p in again.delete <==> p == MARKER && TookSnapshot(dest, cs, m)
  {
  }

  lemma MarkerListed(src: Tree, dest: Tree, hash: Hash, cs: ChangeSet)
    requires Compatible(src, dest) && IsDiff(Detect(src, hash), Detect(dest, hash), true, cs)
    ensures MARKER in dest ==> MARKER in cs.delete && cs.delete != []
  {
  }

  /** The digest tells contents of one length apart. */
  ghost predicate TellsApart(hash: Hash) {
    forall a, b :: hash(a) == hash(b) && |a| == |b| ==> a == b
  }

  /** What a whole synchronisation is for, without its change set: a source file is there byte for byte
      exactly if it is not empty or was there before; directories are there; and what the source does
      not have is gone or as it was, as asked. */
  ghost predicate Synchronised(src: Tree, dest: Tree, deleteExtra: bool, t: Tree) {
    && (forall p :: IsFile(src, p) ==>
         (InstalledAt(src, t, p) <==> src[p].content != [] || (p in dest && dest[p] == src[p])))
    && (forall p :: p in src && src[p].Dir? ==> IsDir(t, p))
    && (forall p :: IsFile(dest, p) && p !in src && p != MARKER ==> if deleteExtra then p !in t else SameAt(t, dest, p))
  }

  lemma ApplySynchronises(src: Tree, dest: Tree, hash: Hash, deleteExtra: bool, cs: ChangeSet, ds: seq<Delivery>,
      name: Content)
    requires Compatible(src, dest) && IsDiff(Detect(src, hash), Detect(dest, hash), deleteExtra, cs)
    requires Complete(src, cs.create + cs.update, ds) && TellsApart(hash)
    ensures Synchronised(src, dest, deleteExtra, Applied(dest, map[], cs, Flat(ds) + [SENTINEL], name).dest)
  {
    var w := WholeApply(src, dest, hash, deleteExtra, cs, ds, name);
    MirrorsFiles(src, dest, hash, deleteExtra, cs, Carried(ds), w.dest);
    MirrorsRest(src, dest, hash, deleteExtra, cs, Carried(ds), w.dest);
  }

  lemma MirrorsFiles(src: Tree, dest: Tree, hash: Hash, deleteExtra: bool, cs: ChangeSet, m: map<Path, Content>,
      t: Tree)
    requires Compatible(src, dest) && IsDiff(Detect(src, hash), Detect(dest, hash), deleteExtra, cs) && TellsApart(hash)
    requires CarriesNeeded(src, cs, m) && forall q :: q != MARKER ==> LeftAt(src, dest, cs, m, t, q)
    ensures forall p :: IsFile(src, p) ==>
      (InstalledAt(src, t, p) <==> src[p].content != [] || (p in dest && dest[p] == src[p]))
  {
    forall p | IsFile(src, p)
      ensures InstalledAt(src, t, p) <==> src[p].content != [] || (p in dest && dest[p] == src[p])
    {
      RequestedAt(src, dest, hash, deleteExtra, cs, m, p);
      MirrorsFile(src, dest, hash, cs, m, t, p);
    }
  }

  lemma RequestedAt(src: Tree, dest: Tree, hash: Hash, deleteExtra: bool, cs: ChangeSet, m: map<Path, Content>, p: Path)
    requires Compatible(src, dest) && IsDiff(Detect(src, hash), Detect(dest, hash), deleteExtra, cs)
    requires CarriesNeeded(src, cs, m) && IsFile(src, p)
    ensures p != MARKER && p !in cs.delete && (p in m ==> m[p] == src[p].content)
    ensures p in m <==> (p in cs.create || p in cs.update) && src[p].content != []
    ensures p in cs.create <==> p !in dest
    ensures p in cs.update <==> IsFile(dest, p) && Differs(MetaOf(src[p], hash), MetaOf(dest[p], hash))
  {
    DiffKinds(src, dest, hash, deleteExtra, cs);
    NeededAt(cs, p);
  }

  lemma NeededAt(cs: ChangeSet, p: Path)
    ensures p in Needed(cs) <==> p in cs.create || p in cs.update
  {
  }

  lemma MirrorsRest(src: Tree, dest: Tree, hash: Hash, deleteExtra: bool, cs: ChangeSet, m: map<Path, Content>, t: Tree)
    requires Compatible(src, dest) && IsDiff(Detect(src, hash), Detect(dest, hash), deleteExtra, cs)
    requires CarriesNeeded(src, cs, m) && forall q :: q != MARKER ==> LeftAt(src, dest, cs, m, t, q)
    ensures forall p :: p in src && src[p].Dir? ==> IsDir(t, p)
    ensures forall p :: IsFile(dest, p) && p !in src && p != MARKER ==>
      if deleteExtra then p !in t else SameAt(t, dest, p)
  {
    DiffKinds(src, dest, hash, deleteExtra, cs);
    forall p | p in src && src[p].Dir? ensures IsDir(t, p) {
      if p != [] { assert LeftAt(src, dest, cs, m, t, p); }
    }
    forall p | IsFile(dest, p) && p !in src && p != MARKER
      ensures if deleteExtra then p !in t else SameAt(t, dest, p)
    {
      assert LeftAt(src, dest, cs, m, t, p);
    }
  }

  lemma MirrorsFile(src: Tree, dest: Tree, hash: Hash, cs: ChangeSet, m: map<Path, Content>, t: Tree, p: Path)
    requires Compatible(src, dest) && TellsApart(hash) && IsFile(src, p) && LeftAt(src, dest, cs, m, t, p)
    requires p !in cs.delete && (p in m ==> m[p] == src[p].content)
    requires p in m <==> (p in cs.create || p in cs.update) && src[p].content != []
    requires p in cs.create <==> p !in dest
    requires p in cs.update <==> IsFile(dest, p) && Differs(MetaOf(src[p], hash), MetaOf(dest[p], hash))
    ensures InstalledAt(src, t, p) <==> src[p].content != [] || (p in dest && dest[p] == src[p])
  {
  }

  // ---- A stream that stops early ----

  /** The first k pieces of a file carry a prefix of it, a proper one if pieces are missing. */
  lemma {:induction false} PiecesPrefix(p: Path, content: Content, items: seq<Item>, k: nat) returns (n: nat)
    requires Pieces(p, content, items) && k <= |items|
    ensures n <= |content| && Pieces(p, content[..n], items[..k])
    ensures (n == 0 <==> k == 0) && (n == |content| <==> k == |items|)
    decreases |items|
  {
    if k == 0 {
      n := 0;
    } else {
      var x := items[0];
      var m := PiecesPrefix(p, content[|x.data|..], items[1..], k - 1);
      n := |x.data| + m;
      assert content[..n][|x.data|..] == content[|x.data|..][..m];
      assert items[..k][1..] == items[1..][..k - 1];
    }
  }

  /** A delivery of which some pieces were lost. */
  ghost predicate Cut(whole: Delivery, part: Delivery) {
    IsDelivery(part) && part.path == whole.path && part.content != whole.content
  }

  /** ds up to the piece where the stream stops: all of it, or whole files and at most one cut. */
  ghost predicate CutShort(ds: seq<Delivery>, part: seq<Delivery>) {
    && |part| <= |ds|
    && (forall i :: 0 <= i < |part| ==> part[i] == ds[i] || (i == |part| - 1 && Cut(ds[i], part[i])))
  }

  ghost predicate Shorter(ds: seq<Delivery>, part: seq<Delivery>)
    requires |part| <= |ds|
  {
    |part| < |ds| || (part != [] && Cut(ds[|part| - 1], part[|part| - 1]))
  }

  lemma {:induction false} CutStream(ds: seq<Delivery>, k: nat) returns (part: seq<Delivery>)
    requires k <= |Flat(ds)| && forall i :: 0 <= i < |ds| ==> IsDelivery(ds[i])
    ensures Flat(part) == Flat(ds)[..k] && CutShort(ds, part)
    ensures k < |Flat(ds)| ==> Shorter(ds, part)
    ensures k == |Flat(ds)| ==> part == ds && !Shorter(ds, part)
    decreases |ds|
  {
    if ds == [] {
      part := [];
    } else if k == 0 {
      part := [];
      assert ds[0].pieces != [];
    } else {
      var d, rest := ds[0], Flat(ds[1..]);
      assert Flat(ds) == d.pieces + rest;
      if k < |d.pieces| {
        var n := PiecesPrefix(d.path, d.content, d.pieces, k);
        part := [Delivery(d.path, d.content[..n], d.pieces[..k])];
        assert part[1..] == [];
        assert Flat(part) == d.pieces[..k] + [];
      } else {
        var more := CutStream(ds[1..], k - |d.pieces|);
        part := [d] + more;
        assert part[1..] == more;
        CutAfter(ds, d, more);
      }
    }
  }

  lemma CutAfter(ds: seq<Delivery>, d: Delivery, more: seq<Delivery>)
    requires ds != [] && ds[0] == d && CutShort(ds[1..], more)
    ensures CutShort(ds, [d] + more)
    ensures Shorter(ds[1..], more) ==> Shorter(ds, [d] + more)
    ensures more == ds[1..] ==> [d] + more == ds
  {
    var part := [d] + more;
    forall i | 0 <= i < |part| ensures part[i] == ds[i] || (i == |part| - 1 && Cut(ds[i], part[i])) {
      if i > 0 { assert part[i] == more[i - 1] && ds[i] == ds[1..][i - 1]; }
    }
  }

  lemma CutSession(src: Tree, dest: Tree, hash: Hash, deleteExtra: bool, cs: ChangeSet, ds: seq<Delivery>,
      part: seq<Delivery>)
    requires Session(src, dest, hash, deleteExtra, cs, ds, [SENTINEL]) && CutShort(ds, part)
    ensures Session(src, dest, hash, deleteExtra, cs, part, [])
  {
  }

  lemma LostPath(ds: seq<Delivery>, part: seq<Delivery>) returns (p: Path)
    requires forall i, j :: 0 <= i < j < |ds| ==> ds[i].path != ds[j].path
    requires CutShort(ds, part) && Shorter(ds, part)
    ensures p in Carried(ds) && (p in Carried(part) ==> Carried(part)[p] != Carried(ds)[p])
  {
    var i := if part != [] && Cut(ds[|part| - 1], part[|part| - 1]) then |part| - 1 else |part|;
    p := ds[i].path;
    CarriedAt(ds, i);
    CarriedOnly(part, p);
    if i < |part| { CarriedAt(part, i); }
  }

  /** A file that was lost, in part or altogether, is not what the source has. */
  lemma LostFile(src: Tree, dest: Tree, hash: Hash, deleteExtra: bool, cs: ChangeSet, m: map<Path, Content>, t: Tree,
      p: Path)
    requires Compatible(src, dest) && IsDiff(Detect(src, hash), Detect(dest, hash), deleteExtra, cs)
    requires p in Needed(cs) && LeftAt(src, dest, cs, m, t, p)
    requires IsFile(src, p) && (p in m ==> m[p] != src[p].content)
    ensures !InstalledAt(src, t, p)
  {
    DiffKinds(src, dest, hash, deleteExtra, cs);
  }

  ghost predicate InstalledAt(src: Tree, t: Tree, p: Path) {
    p in src && p in t && t[p] == src[p]
  }

  /** Every requested nonempty file is as in the source. */
  ghost predicate Installed(src: Tree, cs: ChangeSet, t: Tree) {
    forall p :: p in Needed(cs) && !EmptyFile(src, p) ==> InstalledAt(src, t, p)
  }

  /** A stream that ends between two chunks, as when the connection closes, ends the loop like the
      sentinel does: Apply reports success and installs what it has of the file in hand. It leaves
      every requested nonempty file equal to the source exactly when no chunk was lost. */
  lemma TruncatedApply(src: Tree, dest: Tree, hash: Hash, deleteExtra: bool, cs: ChangeSet, ds: seq<Delivery>,
      name: Content, k: nat)
    requires Compatible(src, dest) && IsDiff(Detect(src, hash), Detect(dest, hash), deleteExtra, cs)
    requires Complete(src, cs.create + cs.update, ds) && k <= |Flat(ds)|
    ensures var w := Applied(dest, map[], cs, Flat(ds)[..k], name);
            StatusOf(w.applied, w.failed) == Success && (Installed(src, cs, w.dest) <==> k == |Flat(ds)|)
  {
    CompleteSession(src, dest, hash, deleteExtra, cs, ds);
    var part := CutStream(ds, k);
    CutSession(src, dest, hash, deleteExtra, cs, ds, part);
    var w := ApplyShape(src, dest, hash, deleteExtra, cs, part, [], name);
    assert Flat(part) + [] == Flat(ds)[..k];
    CutInstalls(src, dest, hash, deleteExtra, cs, ds, part, name, w);
  }

  lemma CutInstalls(src: Tree, dest: Tree, hash: Hash, deleteExtra: bool, cs: ChangeSet, ds: seq<Delivery>,
      part: seq<Delivery>, name: Content, w: Work)
    requires Session(src, dest, hash, deleteExtra, cs, ds, [SENTINEL]) && CarriesNeeded(src, cs, Carried(ds))
    requires CutShort(ds, part) && (part == ds || Shorter(ds, part)) && Shape(src, dest, cs, Carried(part), name, w)
    ensures if Shorter(ds, part) then !Installed(src, cs, w.dest) else Installed(src, cs, w.dest)
  {
    if Shorter(ds, part) {
      var p := LostPath(ds, part);
      assert p != MARKER;
      LostFile(src, dest, hash, deleteExtra, cs, Carried(part), w.dest, p);
    } else {
      DeliveredExactly(src, dest, cs, Carried(ds), w);
    }
  }
}
