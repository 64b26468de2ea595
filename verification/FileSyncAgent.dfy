/** The agent's side of file.sync as a mutable filesystem: internal/primitive/filesync/apply.go
    and rollback.go, statement by statement. */
module FileSyncAgent {
  import opened Wrappers
  import opened FileTree
  import opened FileSync
  import opened FileSyncEffects
  import opened FileSyncTheorems
  import opened FileSyncUndo

  class Agent {
    var dest: Tree
    var snaps: Snapshots
    // Apply's locals
    var snapshotDir: Tree
    var currentFile: Option<Tmp>
    var currentPath: Path
    var applied: seq<Path>
    var failed: seq<Path>

    function W(): Work
      reads this
    {
      Work(dest, snapshotDir, currentFile, currentPath, applied, failed)
    }

    constructor (tree: Tree)
      ensures dest == tree && snaps == map[]
    {
      dest, snaps, snapshotDir := tree, map[], map[];
      currentFile, currentPath, applied, failed := None, [], [], [];
    }

    method FinishCurrentFile() returns (ok: bool)
      modifies this`dest, this`currentFile, this`currentPath, this`applied
      ensures (W(), ok) == FinishFile(old(W()))
    {
      if currentFile.None? { return true; }
      if currentFile.value.closed { return false; }
      var data := currentFile.value.data;
      currentFile := Some(Tmp(data, true));
      if currentPath == [] { return false; }
      var made := MkdirAll(dest, Parent(currentPath));
      if made.None? { return false; }
      dest := made.value;
      if !CanCreate(dest, currentPath) { return false; }
      dest := dest[currentPath := File(data)];
      applied := applied + [currentPath];
      currentFile, currentPath := None, [];
      return true;
    }

    method FinishAndRecord()
      modifies this`dest, this`currentFile, this`currentPath, this`applied, this`failed
      ensures W() == FinishOrFail(old(W()))
    {
      var ok := FinishCurrentFile();
      if !ok { failed := failed + [currentPath]; }
    }

    method SnapshotFile(rel: Path)
      modifies this`snapshotDir
      ensures W() == TakeSnapshot(old(W()), rel)
    {
      if rel != [] {
        snapshotDir := TryMkdirAll(snapshotDir, Parent(rel));
        snapshotDir := CopyFile(dest, rel, snapshotDir, rel).0;
      }
    }

    method OpenTemp(rel: Path) returns (ok: bool)
      modifies this
      ensures (W(), ok) == OpenFile(old(W()), rel) && snaps == old(snaps)
    {
      if Stat(dest, rel).Found? { SnapshotFile(rel); }
      var tmpDir := if rel == [] then [] else Parent(rel);
      dest := TryMkdirAll(dest, tmpDir);
      if !IsDir(dest, tmpDir) {
        failed := failed + [rel];
        return false;
      }
      currentFile, currentPath := Some(Tmp([], false)), rel;
      return true;
    }

    method ReceiveChunk(needsTransfer: set<Path>, rel: Path, data: Content, eof: bool)
      modifies this
      ensures W() == TakeChunk(old(W()), needsTransfer, rel, data, eof) && snaps == old(snaps)
    {
      if rel != currentPath {
        FinishAndRecord();
        if rel !in needsTransfer { return; }
        var ok := OpenTemp(rel);
        if !ok { return; }
      }
      if currentFile.Some? && data != [] {
        if currentFile.value.closed {
          failed := failed + [rel];
        } else {
          currentFile := Some(currentFile.value.(data := currentFile.value.data + data));
        }
      }
      if eof { FinishAndRecord(); }
    }

    method MakeDirectories(dirs: seq<Path>)
      modifies this`dest, this`applied, this`failed
      ensures W() == Mkdirs(old(W()), dirs)
    {
      for i := 0 to |dirs|
        invariant Mkdirs(W(), dirs[i..]) == Mkdirs(old(W()), dirs)
      {
        assert dirs[i..][1..] == dirs[i + 1..];
        var t := MkdirAll(dest, dirs[i]);
        if t.None? {
          failed := failed + [dirs[i]];
        } else {
          dest := t.value;
          applied := applied + [dirs[i]];
        }
      }
    }

    /** The chunk loop: until the stream ends, a read fails or the sentinel arrives. */
    method ReceiveStream(needsTransfer: set<Path>, items: seq<Item>)
      modifies this
      ensures W() == Chunks(old(W()), needsTransfer, items) && snaps == old(snaps)
    {
      var i := 0;
      while i < |items|
        invariant 0 <= i <= |items| && snaps == old(snaps)
        invariant Chunks(W(), needsTransfer, items[i..]) == Chunks(old(W()), needsTransfer, items)
      {
        assert items[i..][1..] == items[i + 1..];
        if items[i].ReadError? {
          failed := failed + [CHUNK_STREAM];
          return;
        }
        if items[i].path == [] && items[i].eof { return; }
        ReceiveChunk(needsTransfer, items[i].path, items[i].data, items[i].eof);
        i := i + 1;
      }
    }

    /** `name` is the snapshot directory that the clock names for this run. */
    method Apply(cs: ChangeSet, items: seq<Item>, name: Content) returns (status: Status)
      modifies this
      ensures W() == Applied(old(dest), SnapshotAt(old(snaps), name), cs, items, name)
      ensures snaps == KeepSnapshot(old(snaps), name, snapshotDir)
      ensures status == Success <==> failed == []
      ensures status == AllFailed <==> failed != [] && applied == []
    {
      snapshotDir := SnapshotAt(snaps, name);
      currentFile, currentPath, applied, failed := None, [], [], [];

      MakeDirectories(cs.mkdir);
      ReceiveStream(Needed(cs), items);
      var _ := FinishCurrentFile();

      ghost var deleted := Deletes(W(), cs.delete);
      for k := 0 to |cs.delete|
        invariant snaps == old(snaps) && Deletes(W(), cs.delete[k..]) == deleted
      {
        assert cs.delete[k..][1..] == cs.delete[k + 1..];
        DeleteOne(cs.delete[k]);
      }

      if snapshotDir != map[] && CanCreate(dest, MARKER) {
        dest := dest[MARKER := File(name)];
      }
      snaps := KeepSnapshot(snaps, name, snapshotDir);
      status := StatusOf(applied, failed);
    }

    method DeleteOne(rel: Path)
      modifies this
      ensures W() == DeleteStep(old(W()), rel) && snaps == old(snaps)
    {
      SnapshotFile(rel);
      var r := Remove(dest, rel);
      if r.Removed? {
        dest := r.t;
        applied := applied + [rel];
      } else {
        failed := failed + [rel];
      }
    }

    method RestoreOneFile(saved: Tree, rel: Path)
      modifies this
      ensures Undo(dest, applied, failed) == RestoreStep(old(Undo(dest, applied, failed)), saved, rel)
          && snaps == old(snaps)
    {
      if Stat(saved, rel).NotExist? { return; }
      var made := MkdirAll(dest, if rel == [] then [] else Parent(rel));
      if made.None? {
        failed := failed + [rel];
        return;
      }
      var (t, ok) := CopyFile(saved, rel, made.value, rel);
      dest := t;
      if ok { applied := applied + [rel]; } else { failed := failed + [rel]; }
    }

    method DropOneFile(rel: Path)
      modifies this
      ensures Undo(dest, applied, failed) == DropStep(old(Undo(dest, applied, failed)), rel) && snaps == old(snaps)
    {
      var r := Remove(dest, rel);
      if r.CannotRemove? {
        failed := failed + [rel];
      } else {
        if r.Removed? { dest := r.t; }
        applied := applied + [rel];
      }
    }

    method Rollback(cs: ChangeSet) returns (status: Status)
      modifies this
      ensures (Undo(dest, applied, failed), snaps) == FileSync.Rollback(old(dest), old(snaps), cs)
      ensures status == Success <==> failed == []
      ensures status == AllFailed <==> failed != [] && applied == []
    {
      applied, failed := [], [];
      if !IsFile(dest, MARKER) { return Success; }
      var name := dest[MARKER].content;
      var saved := SnapshotAt(snaps, name);

      var toRestore := cs.update + cs.delete;
      ghost var restored := Restores(Undo(dest, applied, failed), saved, toRestore);
      for i := 0 to |toRestore|
        invariant snaps == old(snaps) && Restores(Undo(dest, applied, failed), saved, toRestore[i..]) == restored
      {
        assert toRestore[i..][1..] == toRestore[i + 1..];
        RestoreOneFile(saved, toRestore[i]);
      }

      ghost var dropped := Drops(Undo(dest, applied, failed), cs.create);
      for k := 0 to |cs.create|
        invariant snaps == old(snaps) && Drops(Undo(dest, applied, failed), cs.create[k..]) == dropped
      {
        assert cs.create[k..][1..] == cs.create[k + 1..];
        DropOneFile(cs.create[k]);
      }

      snaps := snaps - {name};
      dest := dest - {MARKER};
      status := StatusOf(applied, failed);
    }
  }

  /** The whole protocol on a running agent: apply, possibly cut short, then roll back. */
  method ApplyThenRollback(agent: Agent, src: Tree, hash: Hash, deleteExtra: bool, cs: ChangeSet,
      ghost ds: seq<Delivery>, ghost tail: seq<Item>, items: seq<Item>, name: Content)
    requires Session(src, agent.dest, hash, deleteExtra, cs, ds, tail) && items == Flat(ds) + tail
      && name !in agent.snaps
    modifies agent
    ensures FilesRestored(old(agent.dest), agent.dest) <==>
      UndoHolds(old(agent.dest), old(agent.snaps), cs, Carried(ds))
  {
    ghost var w, r := RollbackUndoesApply(src, agent.dest, hash, deleteExtra, cs, ds, tail, name, agent.snaps);
    var applied := agent.Apply(cs, items, name);
    var undone := agent.Rollback(cs);
  }
}
