/** Rollback after Apply: what it restores, and exactly when that is everything. */
module FileSyncUndo {
  import opened FileTree
  import opened FileSync
  import opened FileSyncEffects
  import opened FileSyncTheorems

  /** What restoring p from a snapshot directory writes, if anything. */
  ghost function Snapped(snap: Tree, p: Path): Content
    requires p in snap
  {
    match snap[p] case File(c) => c case Dir => []
  }

  ghost function Restored(snap: Tree, rels: seq<Path>): map<Path, Content> {
    map p | p in rels && p in snap :: Snapped(snap, p)
  }

  lemma RestoreOne(u: Undo, snap: Tree, p: Path)
    requires Ready(u.dest, p)
    ensures RestoreStep(u, snap, p).dest == if p in snap then u.dest[p := File(Snapped(snap, p))] else u.dest
    ensures !UnderFile(snap, p) && (p in snap ==> snap[p].File?) ==> RestoreStep(u, snap, p).failed == u.failed
  {
    MkdirAllOfDir(u.dest, Parent(p));
  }

  lemma {:induction false} RestoresEffect(u: Undo, snap: Tree, rels: seq<Path>)
    requires forall p :: p in rels ==> Ready(u.dest, p)
    ensures Restores(u, snap, rels).dest == Overlay(u.dest, Restored(snap, rels))
    ensures (forall p :: p in rels ==> !UnderFile(snap, p) && (p in snap ==> snap[p].File?))
        ==> Restores(u, snap, rels).failed == u.failed
    decreases |rels|
  {
    if rels == [] {
      assert Restored(snap, rels) == map[];
      assert Overlay(u.dest, map[]) == u.dest;
    } else {
      var p, rest := rels[0], rels[1..];
      assert rels == [p] + rest;
      RestoreOne(u, snap, p);
      var u1 := RestoreStep(u, snap, p);
      forall q | q in rest ensures Ready(u1.dest, q) {
        assert Ready(u.dest, q) && Ready(u.dest, p);
      }
      RestoresEffect(u1, snap, rest);
      OverlayRestored(u.dest, u1.dest, snap, p, rest);
    }
  }

  lemma OverlayRestored(t: Tree, t1: Tree, snap: Tree, p: Path, rest: seq<Path>)
    requires t1 == if p in snap then t[p := File(Snapped(snap, p))] else t
    ensures Overlay(t1, Restored(snap, rest)) == Overlay(t, Restored(snap, [p] + rest))
  {
    RestoredCons(snap, p, rest);
    if p in snap { OverlayCons(t, Restored(snap, rest), p, Snapped(snap, p)); }
  }

  lemma RestoredCons(snap: Tree, p: Path, rest: seq<Path>)
    ensures Restored(snap, [p] + rest) == if p in snap then Restored(snap, rest)[p := Snapped(snap, p)]
      else Restored(snap, rest)
  {
    assert forall q :: q in [p] + rest <==> q == p || q in rest;
  }

  lemma OverlayCons(t: Tree, m: map<Path, Content>, p: Path, c: Content)
    requires p in m ==> m[p] == c
    ensures Overlay(t, m[p := c]) == Overlay(t[p := File(c)], m)
  {
  }

  lemma {:induction false} DropsEffect(u: Undo, rels: seq<Path>)
    requires forall p :: p in rels ==> p != [] && !UnderFile(u.dest, p) && (p in u.dest ==> u.dest[p].File?)
    ensures Drops(u, rels).dest == u.dest - Members(rels) && Drops(u, rels).failed == u.failed
    decreases |rels|
  {
    if rels == [] {
      assert Members(rels) == {};
    } else {
      var p, rest := rels[0], rels[1..];
      assert rels == [p] + rest;
      var u1 := DropStep(u, p);
      assert u1.dest == u.dest - {p};
      DropsEffect(u1, rest);
      assert Members(rels) == {p} + Members(rest);
    }
  }

  /** Every file other than the marker is back to what it was, absent files included. */
  ghost predicate FilesRestored(dest: Tree, t: Tree) {
    forall q :: q != MARKER ==> (IsFile(t, q) <==> IsFile(dest, q)) && (IsFile(dest, q) ==> t[q] == dest[q])
  }

  /** The change set asks for source files and existing destination files, and only requested
      files were carried. */
  ghost predicate Asked(src: Tree, dest: Tree, cs: ChangeSet, m: map<Path, Content>) {
    && (forall q :: q in m ==> q in cs.create || q in cs.update)
    && (forall q :: q in cs.delete ==> IsFile(dest, q))
    && (forall q :: q in cs.update ==> IsFile(src, q) && IsFile(dest, q))
    && (forall q :: q in cs.create ==> IsFile(src, q) && q !in dest)
  }

  /** The trees a rollback meets: what Apply left, as Ready and droppable paths. */
  lemma AfterApplyReady(src: Tree, dest: Tree, cs: ChangeSet, m: map<Path, Content>, t: Tree)
    requires Compatible(src, dest)
    requires forall q :: q != MARKER ==> LeftAt(src, dest, cs, m, t, q)
    requires (MARKER in t ==> t[MARKER].File?) && Asked(src, dest, cs, m)
    ensures forall p :: p in cs.update + cs.delete ==> Ready(t, p)
    ensures forall p, k :: p in cs.create && 0 < k < |p| ==> p[..k] in src && src[p[..k]].Dir? && IsDir(t, p[..k])
  {
    forall p | p in cs.update + cs.delete ensures Ready(t, p) {
      assert IsDir(dest, Parent(p));
      if Parent(p) != [] { assert LeftAt(src, dest, cs, m, t, Parent(p)); }
      assert p != MARKER ==> LeftAt(src, dest, cs, m, t, p);
    }
    forall p, k | p in cs.create && 0 < k < |p| ensures p[..k] in src && src[p[..k]].Dir? && IsDir(t, p[..k]) {
      PrefixesAreDirs(src, p, k);
      assert LeftAt(src, dest, cs, m, t, p[..k]);
    }
  }

  /** The tree after a rollback from any snapshot directory. */
  lemma RollbackEffect(src: Tree, dest: Tree, cs: ChangeSet, m: map<Path, Content>, t: Tree, snap: Tree)
      returns (u: Undo)
    requires Compatible(src, dest)
    requires forall q :: q != MARKER ==> LeftAt(src, dest, cs, m, t, q)
    requires (MARKER in t ==> t[MARKER].File?) && Asked(src, dest, cs, m)
    ensures u == RolledBack(t, snap, cs)
    ensures u.dest == Overlay(t, Restored(snap, cs.update + cs.delete)) - Members(cs.create) - {MARKER}
    ensures (forall p :: p in cs.update + cs.delete ==> !UnderFile(snap, p) && (p in snap ==> snap[p].File?))
        ==> u.failed == []
  {
    AfterApplyReady(src, dest, cs, m, t);
    var u1 := Restores(Undo(t, [], []), snap, cs.update + cs.delete);
    RestoresEffect(Undo(t, [], []), snap, cs.update + cs.delete);
    forall p | p in cs.create ensures p != [] && !UnderFile(u1.dest, p) && (p in u1.dest ==> u1.dest[p].File?) {
      forall k | 0 < k < |p| ensures !IsFile(u1.dest, p[..k]) {
        assert p[..k] in src && src[p[..k]].Dir?;
        assert p[..k] !in cs.update + cs.delete;
      }
      assert LeftAt(src, dest, cs, m, t, p);
    }
    DropsEffect(u1, cs.create);
    u := RolledBack(t, snap, cs);
  }

  /** A stale marker (one this Apply did not write) names an old snapshot directory; it does
      no harm if what is kept there of the requested updates is what is there now. */
  ghost predicate StaleHarmless(dest: Tree, snaps: Snapshots, cs: ChangeSet)
    requires IsFile(dest, MARKER)
  {
    var stale := SnapshotAt(snaps, dest[MARKER].content);
    forall q :: q in cs.update && q in stale && q in dest ==> dest[q] == File(Snapped(stale, q))
  }

  /** The exact condition under which Rollback undoes Apply. */
  ghost predicate UndoHolds(dest: Tree, snaps: Snapshots, cs: ChangeSet, m: map<Path, Content>) {
    || TookSnapshot(dest, cs, m)
    || (if IsFile(dest, MARKER) then StaleHarmless(dest, snaps, cs) else m == map[])
  }

  lemma RestoredFromSnap(src: Tree, dest: Tree, cs: ChangeSet, m: map<Path, Content>, t: Tree, snap: Tree, r: Tree)
    requires forall q :: q != MARKER ==> LeftAt(src, dest, cs, m, t, q)
    requires forall q :: IsFile(snap, q) ==> q in dest && dest[q] == snap[q]
    requires forall q :: (q in m && q in dest) || q in cs.delete ==> IsFile(snap, q)
    requires Asked(src, dest, cs, m) && forall q :: q in cs.update && q in snap ==> snap[q].File?
    requires r == Overlay(t, Restored(snap, cs.update + cs.delete)) - Members(cs.create) - {MARKER}
    ensures FilesRestored(dest, r)
  {
    forall q | q != MARKER ensures (IsFile(r, q) <==> IsFile(dest, q)) && (IsFile(dest, q) ==> r[q] == dest[q]) {
      RestoredAt(src, dest, cs, m, t, snap, r, q);
    }
  }

  lemma RestoredAt(src: Tree, dest: Tree, cs: ChangeSet, m: map<Path, Content>, t: Tree, snap: Tree, r: Tree, q: Path)
    requires q != MARKER && LeftAt(src, dest, cs, m, t, q) && Asked(src, dest, cs, m)
    requires IsFile(snap, q) ==> q in dest && dest[q] == snap[q]
    requires (q in m && q in dest) || q in cs.delete ==> IsFile(snap, q)
    requires q in cs.update && q in snap ==> snap[q].File?
    requires r == Overlay(t, Restored(snap, cs.update + cs.delete)) - Members(cs.create) - {MARKER}
    ensures IsFile(r, q) <==> IsFile(dest, q)
    ensures IsFile(dest, q) ==> r[q] == dest[q]
  {
    assert q in cs.update + cs.delete <==> q in cs.update || q in cs.delete;
  }

  lemma RestoredFromStale(src: Tree, dest: Tree, cs: ChangeSet, m: map<Path, Content>, t: Tree, stale: Tree, r: Tree)
    requires forall q :: q != MARKER ==> LeftAt(src, dest, cs, m, t, q)
    requires cs.delete == [] && forall q :: q in m ==> q !in dest && q in cs.create
    requires forall q :: q in cs.update ==> IsFile(dest, q) && q != MARKER && q !in cs.create
    requires forall q :: q in cs.create ==> q !in dest
    requires r == Overlay(t, Restored(stale, cs.update + cs.delete)) - Members(cs.create) - {MARKER}
    ensures FilesRestored(dest, r) <==> forall q :: q in cs.update && q in stale && q in dest ==>
      dest[q] == File(Snapped(stale, q))
  {
    assert cs.update + cs.delete == cs.update;
    forall q | q in cs.update && q in stale ensures q in r && r[q] == File(Snapped(stale, q)) {}
    if forall q :: q in cs.update && q in stale && q in dest ==> dest[q] == File(Snapped(stale, q)) {
      forall q | q != MARKER ensures (IsFile(r, q) <==> IsFile(dest, q)) && (IsFile(dest, q) ==> r[q] == dest[q]) {
        assert LeftAt(src, dest, cs, m, t, q);
      }
    }
  }

  /** Rollback after any Apply, interrupted or not, restores every file if and only if Apply
      took a snapshot, or a stale marker is harmless, or nothing was created. */
  lemma RollbackUndoesApply(src: Tree, dest: Tree, hash: Hash, deleteExtra: bool, cs: ChangeSet, ds: seq<Delivery>,
      tail: seq<Item>, name: Content, snaps: Snapshots)
    returns (w: Work, r: (Undo, Snapshots))
    requires Session(src, dest, hash, deleteExtra, cs, ds, tail) && name !in snaps
    ensures w == Applied(dest, map[], cs, Flat(ds) + tail, name)
    ensures r == Rollback(w.dest, KeepSnapshot(snaps, name, w.snap), cs)
    ensures FilesRestored(dest, r.0.dest) <==> UndoHolds(dest, snaps, cs, Carried(ds))
    ensures TookSnapshot(dest, cs, Carried(ds)) ==> r.1 == snaps && MARKER !in r.0.dest && r.0.failed == []
  {
    w := ApplyShape(src, dest, hash, deleteExtra, cs, ds, tail, name);
    SessionAsks(src, dest, hash, deleteExtra, cs, ds, tail);
    if w.snap != map[] {
      r := UndoWithSnapshot(src, dest, cs, Carried(ds), name, snaps, w);
    } else {
      r := UndoWithout(src, dest, cs, Carried(ds), name, snaps, w);
    }
  }

  lemma SessionAsks(src: Tree, dest: Tree, hash: Hash, deleteExtra: bool, cs: ChangeSet, ds: seq<Delivery>,
      tail: seq<Item>)
    requires Session(src, dest, hash, deleteExtra, cs, ds, tail)
    ensures Asked(src, dest, cs, Carried(ds))
  {
    DiffKinds(src, dest, hash, deleteExtra, cs);
    CarriedNeeded(Needed(cs), ds);
  }

  lemma UndoWithSnapshot(src: Tree, dest: Tree, cs: ChangeSet, m: map<Path, Content>, name: Content, snaps: Snapshots,
      w: Work)
    returns (r: (Undo, Snapshots))
    requires Compatible(src, dest) && Asked(src, dest, cs, m) && Shape(src, dest, cs, m, name, w)
    requires name !in snaps && w.snap != map[]
    ensures r == Rollback(w.dest, KeepSnapshot(snaps, name, w.snap), cs)
    ensures FilesRestored(dest, r.0.dest) && r.1 == snaps && MARKER !in r.0.dest && r.0.failed == []
  {
    var u := RollbackEffect(src, dest, cs, m, w.dest, w.snap);
    RestoredFromSnap(src, dest, cs, m, w.dest, w.snap, u.dest);
    forall p | p in cs.update + cs.delete ensures !UnderFile(w.snap, p) && (p in w.snap ==> w.snap[p].File?) {
      forall k | 0 < k < |p| ensures !IsFile(w.snap, p[..k]) { PrefixesAreDirs(dest, p, k); }
    }
    assert snaps[name := w.snap] - {name} == snaps;
    r := (u, snaps);
  }

  lemma UndoWithout(src: Tree, dest: Tree, cs: ChangeSet, m: map<Path, Content>, name: Content, snaps: Snapshots,
      w: Work)
    returns (r: (Undo, Snapshots))
    requires Compatible(src, dest) && Asked(src, dest, cs, m) && Shape(src, dest, cs, m, name, w) && w.snap == map[]
    ensures r == Rollback(w.dest, KeepSnapshot(snaps, name, w.snap), cs)
    ensures FilesRestored(dest, r.0.dest) <==> UndoHolds(dest, snaps, cs, m)
  {
    r := Rollback(w.dest, snaps, cs);
    if IsFile(dest, MARKER) {
      var stale := SnapshotAt(snaps, dest[MARKER].content);
      var u := RollbackEffect(src, dest, cs, m, w.dest, stale);
      RestoredFromStale(src, dest, cs, m, w.dest, stale, u.dest);
    } else {
      NothingUndone(src, dest, cs, m, w.dest);
    }
  }

  lemma NothingUndone(src: Tree, dest: Tree, cs: ChangeSet, m: map<Path, Content>, t: Tree)
    requires forall q :: q != MARKER ==> LeftAt(src, dest, cs, m, t, q)
    requires cs.delete == [] && forall q :: q in m ==> q !in dest && q != MARKER
    ensures FilesRestored(dest, t) <==> m == map[]
  {
    forall q | q in m ensures IsFile(t, q) && !IsFile(dest, q) { assert LeftAt(src, dest, cs, m, t, q); }
    if m == map[] {
      forall q | q != MARKER ensures (IsFile(t, q) <==> IsFile(dest, q)) && (IsFile(dest, q) ==> t[q] == dest[q]) {
        assert LeftAt(src, dest, cs, m, t, q);
      }
    } else {
      var q :| q in m;
      assert IsFile(t, q);
    }
  }

  // ---- What Rollback reports ----

  /** The paths of rels, in order, that a snapshot directory has something for. */
  ghost function Kept(snap: Tree, rels: seq<Path>): seq<Path> {
    if rels == [] then []
    else (if Stat(snap, rels[0]).NotExist? then [] else [rels[0]]) + Kept(snap, rels[1..])
  }

  ghost function Reported(u: Undo): multiset<Path> {
    multiset(u.applied) + multiset(u.failed)
  }

  lemma RestoreReports(u: Undo, snap: Tree, p: Path)
    ensures Reported(RestoreStep(u, snap, p)) ==
      Reported(u) + if Stat(snap, p).NotExist? then multiset{} else multiset{p}
  {
    var u' := RestoreStep(u, snap, p);
    assert u'.applied == u.applied || u'.applied == u.applied + [p];
    assert u'.failed == u.failed || u'.failed == u.failed + [p];
  }

  lemma {:induction false} RestoresReport(u: Undo, snap: Tree, rels: seq<Path>)
    ensures Reported(Restores(u, snap, rels)) == Reported(u) + multiset(Kept(snap, rels))
    decreases |rels|
  {
    if rels != [] {
      var p, rest := rels[0], Kept(snap, rels[1..]);
      RestoreReports(u, snap, p);
      RestoresReport(RestoreStep(u, snap, p), snap, rels[1..]);
      assert multiset([p] + rest) == multiset{p} + multiset(rest) && [] + rest == rest;
    }
  }

  lemma {:induction false} DropsReport(u: Undo, rels: seq<Path>)
    ensures Reported(Drops(u, rels)) == Reported(u) + multiset(rels)
    decreases |rels|
  {
    if rels != [] {
      var u1 := DropStep(u, rels[0]);
      DropsReport(u1, rels[1..]);
      assert rels == [rels[0]] + rels[1..];
      assert Reported(u1) == Reported(u) + multiset{rels[0]};
    }
  }

  /** On any tree, snapshots and change set: a rollback with a marker reports each path it was to
      restore and each it was to remove exactly once, as applied or as failed; without one it reports
      nothing and changes nothing. */
  lemma RollbackReportsAll(dest: Tree, snaps: Snapshots, cs: ChangeSet)
    ensures var (u, kept) := Rollback(dest, snaps, cs);
            if IsFile(dest, MARKER)
            then
              var snap := SnapshotAt(snaps, dest[MARKER].content);
              Reported(u) == multiset(Kept(snap, cs.update + cs.delete)) + multiset(cs.create)
            else u == Undo(dest, [], []) && kept == snaps
  {
    if IsFile(dest, MARKER) {
      var snap := SnapshotAt(snaps, dest[MARKER].content);
      var u0 := Undo(dest, [], []);
      RestoresReport(u0, snap, cs.update + cs.delete);
      DropsReport(Restores(u0, snap, cs.update + cs.delete), cs.create);
    }
  }
}
