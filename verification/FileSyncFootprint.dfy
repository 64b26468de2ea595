/** What Apply and Rollback may touch, on any tree and fed any stream at all: the paths of the change
    set and the marker. Everything else stays, and nothing but directories is added. */
module FileSyncFootprint {
  import opened Wrappers
  import opened FileTree
  import opened FileSync

  ghost predicate Untouched(t: Tree, u: Tree, touched: set<Path>) {
    && (forall p :: p in t && p !in touched ==> p in u && u[p] == t[p])
    && (forall p :: p in u && p !in t && p !in touched ==> u[p].Dir?)
  }

  lemma UntouchedTrans(t: Tree, u: Tree, v: Tree, touched: set<Path>)
    requires Untouched(t, u, touched) && Untouched(u, v, touched)
    ensures Untouched(t, v, touched)
  {
  }

  lemma MakesDirectories(t: Tree, p: Path)
    ensures Untouched(t, TryMkdirAll(t, p), {}) && (MkdirAll(t, p).Some? ==> Untouched(t, MkdirAll(t, p).value, {}))
  {
    MkdirAllEffect(t, p);
  }

  // ---- Apply ----

  /** Only a requested file is ever open. */
  ghost predicate OpenIsNeeded(w: Work, needs: set<Path>) {
    w.tmp.Some? ==> w.path in needs
  }

  lemma {:induction false} MkdirsTouchNothing(w: Work, dirs: seq<Path>)
    ensures Untouched(w.dest, Mkdirs(w, dirs).dest, {}) && Mkdirs(w, dirs).tmp == w.tmp
    decreases |dirs|
  {
    if dirs != [] {
      var w1 := MkdirStep(w, dirs[0]);
      MakesDirectories(w.dest, dirs[0]);
      MkdirsTouchNothing(w1, dirs[1..]);
      UntouchedTrans(w.dest, w1.dest, Mkdirs(w, dirs).dest, {});
    }
  }

  lemma FinishTouchesNeeded(w: Work, needs: set<Path>)
    requires OpenIsNeeded(w, needs)
    ensures Untouched(w.dest, FinishFile(w).0.dest, needs) && OpenIsNeeded(FinishFile(w).0, needs)
  {
    if w.path != [] { MakesDirectories(w.dest, Parent(w.path)); }
  }

  lemma TakeChunkTouchesNeeded(w: Work, needs: set<Path>, rel: Path, data: Content, eof: bool)
    requires OpenIsNeeded(w, needs)
    ensures var w' := TakeChunk(w, needs, rel, data, eof);
            Untouched(w.dest, w'.dest, needs) && OpenIsNeeded(w', needs)
  {
    if rel == w.path {
      WriteTouchesNeeded(w, needs, rel, data, eof);
    } else {
      var w1 := FinishOrFail(w);
      FinishTouchesNeeded(w, needs);
      if rel in needs {
        var w2 := OpenFile(w1, rel).0;
        MakesDirectories(w1.dest, if rel == [] then [] else Parent(rel));
        assert Untouched(w1.dest, w2.dest, needs) && OpenIsNeeded(w2, needs);
        UntouchedTrans(w.dest, w1.dest, w2.dest, needs);
        if OpenFile(w1, rel).1 {
          WriteTouchesNeeded(w2, needs, rel, data, eof);
          UntouchedTrans(w.dest, w2.dest, WriteAndClose(w2, rel, data, eof).dest, needs);
        }
      }
    }
  }

  lemma WriteTouchesNeeded(w: Work, needs: set<Path>, rel: Path, data: Content, eof: bool)
    requires OpenIsNeeded(w, needs)
    ensures var w' := WriteAndClose(w, rel, data, eof);
            Untouched(w.dest, w'.dest, needs) && OpenIsNeeded(w', needs)
  {
    FinishTouchesNeeded(WriteChunk(w, rel, data), needs);
  }

  lemma {:induction false} ChunksTouchNeeded(w: Work, needs: set<Path>, items: seq<Item>)
    requires OpenIsNeeded(w, needs)
    ensures Untouched(w.dest, Chunks(w, needs, items).dest, needs) && OpenIsNeeded(Chunks(w, needs, items), needs)
    decreases |items|
  {
    if items != [] && items[0].Chunk? {
      var x := items[0];
      if x.path != [] || !x.eof {
        var w1 := TakeChunk(w, needs, x.path, x.data, x.eof);
        TakeChunkTouchesNeeded(w, needs, x.path, x.data, x.eof);
        ChunksTouchNeeded(w1, needs, items[1..]);
        UntouchedTrans(w.dest, w1.dest, Chunks(w1, needs, items[1..]).dest, needs);
      }
    }
  }

  lemma {:induction false} DeletesTouchListed(w: Work, rels: seq<Path>, touched: set<Path>)
    requires forall p :: p in rels ==> p in touched
    ensures Untouched(w.dest, Deletes(w, rels).dest, touched)
    decreases |rels|
  {
    if rels != [] {
      var w1 := DeleteStep(w, rels[0]);
      assert Untouched(w.dest, w1.dest, touched);
      DeletesTouchListed(w1, rels[1..], touched);
      UntouchedTrans(w.dest, w1.dest, Deletes(w1, rels[1..]).dest, touched);
    }
  }

  ghost function Footprint(cs: ChangeSet): set<Path> {
    Needed(cs) + (set p | p in cs.delete) + {MARKER}
  }

  lemma Widen(t: Tree, u: Tree, touched: set<Path>, more: set<Path>)
    requires Untouched(t, u, touched) && touched <= more
    ensures Untouched(t, u, more)
  {
  }

  /** Whatever the stream carries, files that were not asked for, wrong orders and cuts included. */
  lemma ApplyTouchesOnlyItsPaths(dest: Tree, snap: Tree, cs: ChangeSet, items: seq<Item>, name: Content)
    ensures Untouched(dest, Applied(dest, snap, cs, items, name).dest, Footprint(cs))
  {
    var needs, all := Needed(cs), Footprint(cs);
    var w0 := Work(dest, snap, None, [], [], []);
    var w1 := Mkdirs(w0, cs.mkdir);
    MkdirsTouchNothing(w0, cs.mkdir);
    Widen(dest, w1.dest, {}, all);
    var w2 := Chunks(w1, needs, items);
    ChunksTouchNeeded(w1, needs, items);
    Widen(w1.dest, w2.dest, needs, all);
    UntouchedTrans(dest, w1.dest, w2.dest, all);
    var w3 := FinishFile(w2).0;
    FinishTouchesNeeded(w2, needs);
    Widen(w2.dest, w3.dest, needs, all);
    UntouchedTrans(dest, w2.dest, w3.dest, all);
    var w4 := Deletes(w3, cs.delete);
    DeletesTouchListed(w3, cs.delete, all);
    UntouchedTrans(dest, w3.dest, w4.dest, all);
    UntouchedTrans(dest, w4.dest, PutMarker(w4, name).dest, all);
  }

  // ---- Rollback ----

  lemma {:induction false} RestoresTouchListed(u: Undo, snap: Tree, rels: seq<Path>, touched: set<Path>)
    requires forall p :: p in rels ==> p in touched
    ensures Untouched(u.dest, Restores(u, snap, rels).dest, touched)
    decreases |rels|
  {
    if rels != [] {
      var u1 := RestoreStep(u, snap, rels[0]);
      MakesDirectories(u.dest, if rels[0] == [] then [] else Parent(rels[0]));
      assert Untouched(u.dest, u1.dest, touched);
      RestoresTouchListed(u1, snap, rels[1..], touched);
      UntouchedTrans(u.dest, u1.dest, Restores(u1, snap, rels[1..]).dest, touched);
    }
  }

  lemma {:induction false} DropsTouchListed(u: Undo, rels: seq<Path>, touched: set<Path>)
    requires forall p :: p in rels ==> p in touched
    ensures Untouched(u.dest, Drops(u, rels).dest, touched)
    decreases |rels|
  {
    if rels != [] {
      var u1 := DropStep(u, rels[0]);
      assert Untouched(u.dest, u1.dest, touched);
      DropsTouchListed(u1, rels[1..], touched);
      UntouchedTrans(u.dest, u1.dest, Drops(u1, rels[1..]).dest, touched);
    }
  }

  /** Whatever the marker names, stale or not. */
  lemma RollbackTouchesOnlyItsPaths(dest: Tree, snaps: Snapshots, cs: ChangeSet)
    ensures Untouched(dest, Rollback(dest, snaps, cs).0.dest, Footprint(cs))
  {
    if IsFile(dest, MARKER) {
      var snap, all := SnapshotAt(snaps, dest[MARKER].content), Footprint(cs);
      var u0 := Undo(dest, [], []);
      var u1 := Restores(u0, snap, cs.update + cs.delete);
      RestoresTouchListed(u0, snap, cs.update + cs.delete, all);
      var u2 := Drops(u1, cs.create);
      DropsTouchListed(u1, cs.create, all);
      UntouchedTrans(dest, u1.dest, u2.dest, all);
      UntouchedTrans(dest, u2.dest, u2.dest - {MARKER}, all);
    }
  }
}
