/** What Apply's answer is worth, on any tree and fed any stream: what it reports, and exactly when
    success means that every requested file that arrived is in place. */
module FileSyncAnswers {
  import opened Wrappers
  import opened FileTree
  import opened FileSync
  import opened FileSyncFootprint

  // ---- Everything is reported ----

  ghost function Told(w: Work): multiset<Path> {
    multiset(w.applied) + multiset(w.failed)
  }

  /** Each directory is reported once, and made unless it is reported as failed. */
  lemma {:induction false} MkdirsTell(w: Work, dirs: seq<Path>)
    ensures Told(Mkdirs(w, dirs)) == Told(w) + multiset(dirs)
    ensures forall p :: p in w.failed ==> p in Mkdirs(w, dirs).failed
    ensures forall d :: d in dirs ==> IsDir(Mkdirs(w, dirs).dest, d) || d in Mkdirs(w, dirs).failed
    decreases |dirs|
  {
    if dirs != [] {
      var w1 := MkdirStep(w, dirs[0]);
      MkdirsTell(w1, dirs[1..]);
      MkdirsTouchNothing(w1, dirs[1..]);
      MkdirAllEffect(w.dest, dirs[0]);
      assert dirs == [dirs[0]] + dirs[1..];
      assert Told(w1) == Told(w) + multiset{dirs[0]};
    }
  }

  /** Each path is reported once; what was not there, and what is there still, as failed. */
  lemma {:induction false} DeletesTell(w: Work, rels: seq<Path>)
    ensures Told(Deletes(w, rels)) == Told(w) + multiset(rels)
    ensures forall p :: p in w.failed ==> p in Deletes(w, rels).failed
    ensures forall p :: p in Deletes(w, rels).dest ==> p in w.dest
    ensures forall p :: p in rels && (p !in w.dest || p in Deletes(w, rels).dest) ==> p in Deletes(w, rels).failed
    decreases |rels|
  {
    if rels != [] {
      DeleteTells(w, rels[0]);
      DeletesTell(DeleteStep(w, rels[0]), rels[1..]);
      assert rels == [rels[0]] + rels[1..];
    }
  }

  lemma DeleteTells(w: Work, p: Path)
    ensures var w' := DeleteStep(w, p);
            && Told(w') == Told(w) + multiset{p}
            && (forall q :: q in w.failed ==> q in w'.failed)
            && (forall q :: q in w'.dest ==> q in w.dest)
            && (p !in w.dest || p in w'.dest ==> p in w'.failed)
  {
  }

  // ---- Where success is honest ----

  /** The paths of the chunks that are looked at. */
  ghost function Received(items: seq<Item>): set<Path> {
    if items == [] || items[0].ReadError? || (items[0].path == [] && items[0].eof) then {}
    else {items[0].path} + Received(items[1..])
  }

  /** As long as nothing failed: a requested file received is in place, or open and unfinished. */
  ghost predicate Honest(w: Work, needs: set<Path>, got: set<Path>) {
    w.failed == [] ==>
      && (w.tmp.None? ==> w.path == [])
      && (w.tmp.Some? ==>
            !w.tmp.value.closed && w.path in needs && w.path in got && w.path != [] && IsDir(w.dest, Parent(w.path)))
      && forall p :: p in got && p in needs ==> IsFile(w.dest, p) || (w.tmp.Some? && p == w.path)
  }

  lemma FinishIsHonest(w: Work, needs: set<Path>, got: set<Path>)
    requires Honest(w, needs, got) && [] !in needs && w.failed == []
    ensures var (w', ok) := FinishFile(w);
            && w'.failed == [] && (ok <==> !(w.tmp.Some? && IsDir(w.dest, w.path)))
            && (ok ==> Honest(w', needs, got) && w'.tmp.None?)
  {
    if w.tmp.Some? {
      var dir := Parent(w.path);
      assert MkdirAll(w.dest, dir) == Some(w.dest);
    }
  }

  lemma OpenIsHonest(w: Work, needs: set<Path>, got: set<Path>, rel: Path)
    requires Honest(w, needs, got) && w.tmp.None? && rel in needs && [] !in needs && w.failed == []
    ensures var (w', ok) := OpenFile(w, rel);
            && (ok ==> Honest(w', needs, got + {rel}) && w'.path == rel && w'.tmp.Some? && w'.failed == [])
            && (!ok ==> w'.failed != [])
  {
    MakesDirectories(w.dest, Parent(rel));
  }

  lemma WriteIsHonest(w: Work, needs: set<Path>, got: set<Path>, rel: Path, data: Content, eof: bool)
    requires Honest(w, needs, got) && w.path == rel && (rel in got || rel == []) && [] !in needs && w.failed == []
    ensures Honest(WriteAndClose(w, rel, data, eof), needs, got)
  {
    var w1 := WriteChunk(w, rel, data);
    assert Honest(w1, needs, got) && w1.failed == [];
    FinishIsHonest(w1, needs, got);
  }

  lemma TakeChunkIsHonest(w: Work, needs: set<Path>, got: set<Path>, rel: Path, data: Content, eof: bool)
    requires Honest(w, needs, got) && [] !in needs && w.failed == []
    ensures Honest(TakeChunk(w, needs, rel, data, eof), needs, got + {rel})
  {
    if rel == w.path {
      assert w.tmp.Some? ==> got + {rel} == got;
      assert Honest(w, needs, got + {rel});
      WriteIsHonest(w, needs, got + {rel}, rel, data, eof);
    } else {
      FinishIsHonest(w, needs, got);
      var (w1, ok) := FinishFile(w);
      if rel !in needs {
        assert ok ==> Honest(w1, needs, got + {rel});
      } else if ok {
        OpenIsHonest(w1, needs, got, rel);
        var (w2, isOpen) := OpenFile(w1, rel);
        if isOpen { WriteIsHonest(w2, needs, got + {rel}, rel, data, eof); }
      }
    }
  }

  /** Failures are never taken back. */
  lemma {:induction false} ChunksKeepFailures(w: Work, needs: set<Path>, items: seq<Item>)
    requires w.failed != []
    ensures Chunks(w, needs, items).failed != []
    decreases |items|
  {
    if items != [] && items[0].Chunk? && (items[0].path != [] || !items[0].eof) {
      var x := items[0];
      var w1 := TakeChunk(w, needs, x.path, x.data, x.eof);
      TakeChunkKeepsFailures(w, needs, x.path, x.data, x.eof);
      ChunksKeepFailures(w1, needs, items[1..]);
    }
  }

  lemma TakeChunkKeepsFailures(w: Work, needs: set<Path>, rel: Path, data: Content, eof: bool)
    requires w.failed != []
    ensures TakeChunk(w, needs, rel, data, eof).failed != []
  {
    WriteKeepsFailures(w, rel, data, eof);
    var w1 := FinishOrFail(w);
    var w2 := OpenFile(w1, rel).0;
    assert w1.failed != [] && w2.failed != [];
    WriteKeepsFailures(w2, rel, data, eof);
  }

  lemma WriteKeepsFailures(w: Work, rel: Path, data: Content, eof: bool)
    requires w.failed != []
    ensures WriteAndClose(w, rel, data, eof).failed != []
  {
    assert WriteChunk(w, rel, data).failed != [];
  }

  lemma {:induction false} ChunksAreHonest(w: Work, needs: set<Path>, got: set<Path>, items: seq<Item>)
    requires Honest(w, needs, got) && [] !in needs
    ensures Honest(Chunks(w, needs, items), needs, got + Received(items))
    decreases |items|
  {
    if w.failed != [] {
      ChunksKeepFailures(w, needs, items);
    } else if items != [] && items[0].Chunk? && (items[0].path != [] || !items[0].eof) {
      var x := items[0];
      var w1 := TakeChunk(w, needs, x.path, x.data, x.eof);
      TakeChunkIsHonest(w, needs, got, x.path, x.data, x.eof);
      ChunksAreHonest(w1, needs, got + {x.path}, items[1..]);
      assert got + {x.path} + Received(items[1..]) == got + Received(items);
    } else {
      assert items != [] && items[0].Chunk? ==> Received(items) == {};
      assert items == [] || items[0].ReadError? ==> Received(items) == {};
      assert got + Received(items) == got;
    }
  }

  /** Apply's state when the stream has ended, before the last file is closed. */
  ghost function Streamed(dest: Tree, snap: Tree, cs: ChangeSet, items: seq<Item>): Work {
    Chunks(Mkdirs(Work(dest, snap, None, [], [], []), cs.mkdir), Needed(cs), items)
  }

  /** The file still open at the end of the stream would land on a directory. Its failure is not reported. */
  ghost predicate LastIsLost(c: Work) {
    c.tmp.Some? && IsDir(c.dest, c.path)
  }

  lemma AfterLast(c: Work, needs: set<Path>, got: set<Path>)
    requires Honest(c, needs, got) && [] !in needs && c.failed == []
    ensures var w := FinishFile(c).0;
            && w.failed == []
            && (LastIsLost(c) ==> c.path in got && c.path in needs && c.path in w.dest && w.dest[c.path].Dir?)
            && (!LastIsLost(c) ==> forall p :: p in got && p in needs ==> IsFile(w.dest, p))
  {
    FinishIsHonest(c, needs, got);
    if c.tmp.Some? { assert MkdirAll(c.dest, Parent(c.path)) == Some(c.dest); }
  }

  /** When Apply answers success, every requested file that arrived is in place if and only if the
      file still open at the end of the stream does not land on a directory. */
  lemma SuccessIsHonestIff(dest: Tree, snap: Tree, cs: ChangeSet, items: seq<Item>, name: Content)
    requires [] !in Needed(cs) && forall p :: p in Needed(cs) ==> p !in cs.delete
    requires var w := Applied(dest, snap, cs, items, name); StatusOf(w.applied, w.failed) == Success
    ensures var w := Applied(dest, snap, cs, items, name);
            (forall p :: p in Received(items) && p in Needed(cs) ==> IsFile(w.dest, p))
            <==> !LastIsLost(Streamed(dest, snap, cs, items))
  {
    var needs := Needed(cs);
    var w1 := Mkdirs(Work(dest, snap, None, [], [], []), cs.mkdir);
    MkdirsTouchNothing(Work(dest, snap, None, [], [], []), cs.mkdir);
    MkdirsKeepPath(Work(dest, snap, None, [], [], []), cs.mkdir);
    var c := Streamed(dest, snap, cs, items);
    ChunksAreHonest(w1, needs, {}, items);
    assert {} + Received(items) == Received(items);
    LastDecides(c, cs, Received(items), name);
  }

  /** From the end of the stream on. */
  lemma LastDecides(c: Work, cs: ChangeSet, got: set<Path>, name: Content)
    requires Honest(c, Needed(cs), got) && [] !in Needed(cs) && forall p :: p in Needed(cs) ==> p !in cs.delete
    requires Deletes(FinishFile(c).0, cs.delete).failed == []
    ensures var w := PutMarker(Deletes(FinishFile(c).0, cs.delete), name);
            (forall p :: p in got && p in Needed(cs) ==> IsFile(w.dest, p)) <==> !LastIsLost(c)
  {
    var w3 := FinishFile(c).0;
    DeletesTell(w3, cs.delete);
    NoFailureBefore(c, Deletes(w3, cs.delete));
    AfterLast(c, Needed(cs), got);
    forall p | p in Needed(cs) && p in w3.dest
      ensures IsFile(PutMarker(Deletes(w3, cs.delete), name).dest, p) <==> w3.dest[p].File?
    {
      KindIsKept(w3, cs.delete, name, p);
    }
  }

  lemma KindIsKept(w: Work, rels: seq<Path>, name: Content, p: Path)
    requires p in w.dest && p !in rels
    ensures IsFile(PutMarker(Deletes(w, rels), name).dest, p) <==> w.dest[p].File?
  {
    DeletesTouchListed(w, rels, set q | q in rels);
  }

  lemma {:induction false} MkdirsKeepPath(w: Work, dirs: seq<Path>)
    ensures Mkdirs(w, dirs).path == w.path
    decreases |dirs|
  {
    if dirs != [] { MkdirsKeepPath(MkdirStep(w, dirs[0]), dirs[1..]); }
  }

  lemma NoFailureBefore(c: Work, w4: Work)
    requires forall p :: p in FinishFile(c).0.failed ==> p in w4.failed
    ensures w4.failed == [] ==> c.failed == []
  {
    if c.failed != [] { assert c.failed[0] in FinishFile(c).0.failed; }
  }

  /** And success means that every directory is made and everything to delete is gone. */
  lemma SuccessMeansDone(dest: Tree, snap: Tree, cs: ChangeSet, items: seq<Item>, name: Content)
    requires var w := Applied(dest, snap, cs, items, name); StatusOf(w.applied, w.failed) == Success
    ensures var w := Applied(dest, snap, cs, items, name);
            && (forall d :: d in cs.mkdir && d !in Footprint(cs) ==> IsDir(w.dest, d))
            && (forall p :: p in cs.delete && p != MARKER ==> p !in w.dest)
  {
    var w1 := Mkdirs(Work(dest, snap, None, [], [], []), cs.mkdir);
    MkdirsTell(Work(dest, snap, None, [], [], []), cs.mkdir);
    MkdirsTouchNothing(Work(dest, snap, None, [], [], []), cs.mkdir);
    var c := Streamed(dest, snap, cs, items);
    var w3 := FinishFile(c).0;
    DeletesTell(w3, cs.delete);
    NoFailureBefore(c, Deletes(w3, cs.delete));
    if w1.failed != [] { ChunksKeepFailures(w1, Needed(cs), items); }
    StreamAndDeletesTouch(w1, cs, items);
  }

  lemma StreamAndDeletesTouch(w: Work, cs: ChangeSet, items: seq<Item>)
    requires w.tmp.None?
    ensures Untouched(w.dest, Deletes(FinishFile(Chunks(w, Needed(cs), items)).0, cs.delete).dest, Footprint(cs))
  {
    var c := Chunks(w, Needed(cs), items);
    var f := FinishFile(c).0;
    ChunksTouchNeeded(w, Needed(cs), items);
    FinishTouchesNeeded(c, Needed(cs));
    UntouchedTrans(w.dest, c.dest, f.dest, Needed(cs));
    Widen(w.dest, f.dest, Needed(cs), Footprint(cs));
    DeletesTouchListed(f, cs.delete, Footprint(cs));
    UntouchedTrans(w.dest, f.dest, Deletes(f, cs.delete).dest, Footprint(cs));
  }

  /** The shortfall at its smallest: the source has a nonempty file where the destination has a
      directory. Diff asks for it, the stream brings it in one chunk, and Apply answers success with
      nothing applied and the directory still there. Were the chunk flagged as the file's last, the
      answer would be failed. */
  lemma DirectoryInTheWay(dest: Tree, hash: Hash, p: Path, data: Content, name: Content)
    requires p != [] && IsDir(dest, p) && IsDir(dest, Parent(p)) && data != []
    ensures Differs(MetaOf(File(data), hash), MetaOf(Dir, hash))
    ensures var cs := ChangeSet([], [p], [], []);
            var w := Applied(dest, map[], cs, [Chunk(p, data, false), SENTINEL], name);
            StatusOf(w.applied, w.failed) == Success && w.applied == [] && IsDir(w.dest, p)
    ensures var cs := ChangeSet([], [p], [], []);
            var w := Applied(dest, map[], cs, [Chunk(p, data, true), SENTINEL], name);
            StatusOf(w.applied, w.failed) == AllFailed && IsDir(w.dest, p)
  {
    var cs := ChangeSet([], [p], [], []);
    assert p in Needed(cs);
    var w0 := Work(dest, map[], None, [], [], []);
    OneChunk(w0, Needed(cs), p, data, false);
    OneChunk(w0, Needed(cs), p, data, true);
  }

  lemma OneChunk(w: Work, needs: set<Path>, p: Path, data: Content, eof: bool)
    requires w.tmp.None? && w.path == [] && w.applied == w.failed == [] && p in needs
    requires p != [] && IsDir(w.dest, p) && IsDir(w.dest, Parent(p)) && data != []
    ensures var c := Chunks(w, needs, [Chunk(p, data, eof), SENTINEL]);
            && c.dest == w.dest && c.applied == [] && c.path == p && c.tmp == Some(Tmp(data, eof))
            && c.failed == if eof then [p] else []
  {
    assert MkdirAll(w.dest, Parent(p)) == Some(w.dest);
    var w1 := OpenFile(w, p).0;
    assert w1.tmp == Some(Tmp([], false)) && w1.dest == w.dest && w1.path == p;
    assert [] + data == data;
    var items := [Chunk(p, data, eof), SENTINEL];
    assert items[1..] == [SENTINEL];
    var w2 := WriteAndClose(w1, p, data, eof);
    assert TakeChunk(w, needs, p, data, eof) == w2;
    assert Chunks(w2, needs, [SENTINEL]) == w2;
  }
}
