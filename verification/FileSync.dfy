/** internal/primitive/filesync: Diff, the chunk stream, Apply and Rollback. */
module FileSync {
  import opened Wrappers
  import opened FileTree

  // ---- diff.go ----

  /** What Detect records of an entry; the digest is an opaque function of the content. */
  type Hash = Content -> int

  datatype Meta = Meta(isDir: bool, size: nat, sha: int)

  type Listing = map<Path, Meta>

  function MetaOf(e: Entry, hash: Hash): Meta {
    match e
    case Dir => Meta(true, 0, 0)
    case File(c) => Meta(false, |c|, hash(c))
  }

  function Detect(t: Tree, hash: Hash): Listing {
    map p | p in t :: MetaOf(t[p], hash)
  }

  datatype ChangeSet = ChangeSet(create: seq<Path>, update: seq<Path>, delete: seq<Path>, mkdir: seq<Path>)

  predicate IsEmpty(cs: ChangeSet) {
    |cs.create| == 0 && |cs.update| == 0 && |cs.delete| == 0 && |cs.mkdir| == 0
  }

  predicate Differs(a: Meta, b: Meta) {
    a.sha != b.sha || a.size != b.size
  }

  /** The delta, with each path listed once; map iteration leaves the order open. */
  ghost predicate IsDiff(src: Listing, dest: Listing, deleteExtra: bool, cs: ChangeSet) {
    && Distinct(cs.create) && Distinct(cs.update) && Distinct(cs.delete) && Distinct(cs.mkdir)
    && (forall p :: p in cs.mkdir <==> p in src && src[p].isDir && p !in dest)
    && (forall p :: p in cs.create <==> p in src && !src[p].isDir && p !in dest)
    && (forall p :: p in cs.update <==> p in src && !src[p].isDir && p in dest && Differs(src[p], dest[p]))
    && (forall p :: p in cs.delete <==> deleteExtra && p in dest && !dest[p].isDir && p !in src)
  }

  lemma AppendDistinct<T>(s: seq<T>, x: T)
    requires Distinct(s) && x !in s
    ensures Distinct(s + [x])
  {
  }

  method Diff(src: Listing, dest: Listing, deleteExtra: bool) returns (cs: ChangeSet)
    ensures IsDiff(src, dest, deleteExtra, cs)
  {
    cs := ChangeSet([], [], [], []);
    var todo := src.Keys;
    while todo != {}
      invariant todo <= src.Keys && cs.delete == []
      invariant Distinct(cs.create) && Distinct(cs.update) && Distinct(cs.mkdir)
      invariant forall p :: p in cs.mkdir <==> p in src && p !in todo && src[p].isDir && p !in dest
      invariant forall p :: p in cs.create <==> p in src && p !in todo && !src[p].isDir && p !in dest
      invariant forall p :: p in cs.update <==>
        p in src && p !in todo && !src[p].isDir && p in dest && Differs(src[p], dest[p])
    {
      var rel :| rel in todo;
      var m := src[rel];
      if m.isDir {
        if rel !in dest {
          AppendDistinct(cs.mkdir, rel);
          cs := cs.(mkdir := cs.mkdir + [rel]);
        }
      } else if rel !in dest {
        AppendDistinct(cs.create, rel);
        cs := cs.(create := cs.create + [rel]);
      } else if m.sha != dest[rel].sha || m.size != dest[rel].size {
        AppendDistinct(cs.update, rel);
        cs := cs.(update := cs.update + [rel]);
      }
      todo := todo - {rel};
    }
    if deleteExtra {
      ghost var first := cs;
      todo := dest.Keys;
      while todo != {}
        invariant todo <= dest.Keys && Distinct(cs.delete)
        invariant cs == first.(delete := cs.delete)
        invariant forall p :: p in cs.delete <==> p in dest && p !in todo && !dest[p].isDir && p !in src
      {
        var rel :| rel in todo;
        if !dest[rel].isDir && rel !in src {
          AppendDistinct(cs.delete, rel);
          cs := cs.(delete := cs.delete + [rel]);
        }
        todo := todo - {rel};
      }
    }
  }

  // ---- orchestrator.go: streamFiles ----

  /** What the chunk reader hands to Apply; the end of the list is io.EOF. */
  datatype Item = Chunk(path: Path, data: Content, eof: bool) | ReadError

  const SENTINEL := Chunk([], [], true)

  /** Nonempty chunks of one file that carry `content`; only the last may be flagged EOF. */
  ghost predicate Pieces(p: Path, content: Content, items: seq<Item>)
    decreases |items|
  {
    if items == [] then content == []
    else
      var x := items[0];
      && x.Chunk? && x.path == p && 0 < |x.data| <= |content|
      && x.data == content[..|x.data|]
      && (x.eof ==> |items| == 1)
      && Pieces(p, content[|x.data|..], items[1..])
  }

  /** One file's share of a stream. */
  datatype Delivery = Delivery(path: Path, content: Content, pieces: seq<Item>)

  ghost predicate IsDelivery(d: Delivery) {
    d.path != [] && d.content != [] && Pieces(d.path, d.content, d.pieces)
  }

  ghost function Flat(ds: seq<Delivery>): seq<Item> {
    if ds == [] then [] else ds[0].pieces + Flat(ds[1..])
  }

  /** The complete stream for `paths`: every nonempty file in order. An empty file sends nothing. */
  ghost predicate Complete(src: Tree, paths: seq<Path>, ds: seq<Delivery>)
    decreases |paths|
  {
    if paths == [] then ds == []
    else if !IsFile(src, paths[0]) then false
    else if src[paths[0]].content == [] then Complete(src, paths[1..], ds)
    else
      && ds != [] && IsDelivery(ds[0]) && ds[0].path == paths[0] && ds[0].content == src[paths[0]].content
      && Complete(src, paths[1..], ds[1..])
  }

  lemma {:induction false} FlatAppend(ds: seq<Delivery>, d: Delivery)
    ensures Flat(ds + [d]) == Flat(ds) + d.pieces
  {
    if ds == [] {
      assert Flat([d]) == d.pieces + Flat([d][1..]);
    } else {
      FlatAppend(ds[1..], d);
      assert (ds + [d])[1..] == ds[1..] + [d];
    }
  }

  lemma {:induction false} CompleteAppend(src: Tree, paths: seq<Path>, ds: seq<Delivery>, p: Path, more: seq<Delivery>)
    requires Complete(src, paths, ds) && Complete(src, [p], more)
    ensures Complete(src, paths + [p], ds + more)
    decreases |paths|
  {
    if paths == [] {
      assert paths + [p] == [p] && ds + more == more;
    } else {
      assert (paths + [p])[1..] == paths[1..] + [p];
      if src[paths[0]].content == [] {
        CompleteAppend(src, paths[1..], ds, p, more);
      } else {
        CompleteAppend(src, paths[1..], ds[1..], p, more);
        assert (ds + more)[1..] == ds[1..] + more;
      }
    }
  }

  ghost predicate Unended(items: seq<Item>) {
    items == [] || (items[|items| - 1].Chunk? && !items[|items| - 1].eof)
  }

  lemma {:induction false} PiecesAppend(p: Path, content: Content, items: seq<Item>, data: Content, eof: bool)
    requires Pieces(p, content, items) && data != []
    requires Unended(items)
    ensures Pieces(p, content + data, items + [Chunk(p, data, eof)])
    decreases |items|
  {
    var next := Chunk(p, data, eof);
    if items == [] {
      assert [next][1..] == [];
    } else {
      var x := items[0];
      PiecesAppend(p, content[|x.data|..], items[1..], data, eof);
      assert (items + [next])[1..] == items[1..] + [next];
      assert (content + data)[|x.data|..] == content[|x.data|..] + data;
    }
  }

  /** streamFiles. How many bytes one Read returns, and whether the last data comes together
      with io.EOF, is up to the operating system. */
  method StreamFiles(src: Tree, paths: seq<Path>) returns (items: seq<Item>, ok: bool, ghost ds: seq<Delivery>)
    requires [] !in src
    ensures ok <==> forall p :: p in paths ==> IsFile(src, p)
    ensures ok ==> Complete(src, paths, ds) && items == Flat(ds) + [SENTINEL]
  {
    items, ds := [], [];
    for i := 0 to |paths|
      invariant forall j :: 0 <= j < i ==> IsFile(src, paths[j])
      invariant Complete(src, paths[..i], ds) && items == Flat(ds)
    {
      var rel := paths[i];
      if rel !in src || src[rel].Dir? {
        assert !IsFile(src, rel) && rel in paths;
        return items, false, ds;
      }
      var sent := SendFile(rel, src[rel].content);
      ghost var more := if sent == [] then [] else [Delivery(rel, src[rel].content, sent)];
      StreamNext(src, paths[..i], ds, rel, sent, more);
      assert paths[..i + 1] == paths[..i] + [rel];
      items := items + sent;
      ds := ds + more;
    }
    assert paths[..|paths|] == paths;
    items := items + [SENTINEL];
    ok := true;
  }

  lemma StreamNext(src: Tree, paths: seq<Path>, ds: seq<Delivery>, rel: Path, sent: seq<Item>, more: seq<Delivery>)
    requires [] !in src && IsFile(src, rel) && Complete(src, paths, ds) && Pieces(rel, src[rel].content, sent)
    requires more == if sent == [] then [] else [Delivery(rel, src[rel].content, sent)]
    ensures Complete(src, paths + [rel], ds + more) && Flat(ds + more) == Flat(ds) + sent
  {
    assert [rel][1..] == [];
    assert more != [] ==> more[1..] == [];
    CompleteAppend(src, paths, ds, rel, more);
    if sent == [] { assert ds + more == ds; } else { FlatAppend(ds, more[0]); }
  }

  method SendFile(rel: Path, content: Content) returns (sent: seq<Item>)
    ensures Pieces(rel, content, sent)
  {
    sent := [];
    var at := 0;
    while at < |content|
      invariant 0 <= at <= |content| && Pieces(rel, content[..at], sent)
      invariant at < |content| ==> Unended(sent)
      invariant sent == [] <==> at == 0
    {
      var n :| 1 <= n <= |content| - at;
      var eof: bool := *;
      eof := eof && at + n == |content|;
      PiecesAppend(rel, content[..at], sent, content[at..at + n], eof);
      assert content[..at + n] == content[..at] + content[at..at + n];
      sent := sent + [Chunk(rel, content[at..at + n], eof)];
      at := at + n;
    }
    assert content[..at] == content;
  }

  // ---- apply.go ----

  datatype Tmp = Tmp(data: Content, closed: bool)

  datatype Status = Success | Partial | AllFailed

  /** Apply's variables: the destination, this run's snapshot directory, the open temp file. */
  datatype Work = Work(
    dest: Tree,
    snap: Tree,
    tmp: Option<Tmp>,
    path: Path,
    applied: seq<Path>,
    failed: seq<Path>)

  const CHUNK_STREAM: Path := ["chunk-stream"]
  const MARKER: Path := [".devopsctl_last_snap"]

  function MkdirStep(w: Work, rel: Path): Work {
    match MkdirAll(w.dest, rel)
    case None => w.(failed := w.failed + [rel])
    case Some(t) => w.(dest := t, applied := w.applied + [rel])
  }

  function Mkdirs(w: Work, dirs: seq<Path>): Work
    decreases |dirs|
  {
    if dirs == [] then w else Mkdirs(MkdirStep(w, dirs[0]), dirs[1..])
  }

  /** finishCurrentFile: close, make the directory, rename into place. */
  function FinishFile(w: Work): (Work, bool) {
    if w.tmp.None? then (w, true)
    else if w.tmp.value.closed then (w, false)
    else
      var closed := w.(tmp := Some(w.tmp.value.(closed := true)));
      if w.path == [] then (closed, false)
      else
        match MkdirAll(w.dest, Parent(w.path))
        case None => (closed, false)
        case Some(t) =>
          if CanCreate(t, w.path) then
            (w.(dest := t[w.path := File(w.tmp.value.data)], tmp := None, path := [], applied := w.applied + [w.path]),
                true)
          else (closed.(dest := t), false)
  }

  /** A failed finish is recorded under the path still open. */
  function FinishOrFail(w: Work): Work {
    var (w', ok) := FinishFile(w);
    if ok then w' else w'.(failed := w'.failed + [w'.path])
  }

  /** Snapshot an existing file: the parents' errors and the copy's errors are ignored. */
  function TakeSnapshot(w: Work, rel: Path): Work {
    if rel == [] then w else w.(snap := CopyFile(w.dest, rel, TryMkdirAll(w.snap, Parent(rel)), rel).0)
  }

  /** A chunk of another file arrived: snapshot and open a temp file, unless that fails. */
  function OpenFile(w: Work, rel: Path): (Work, bool) {
    var w1 := if Stat(w.dest, rel).Found? then TakeSnapshot(w, rel) else w;
    var dir := if rel == [] then [] else Parent(rel);
    var w2 := w1.(dest := TryMkdirAll(w1.dest, dir));
    if IsDir(w2.dest, dir) then (w2.(tmp := Some(Tmp([], false)), path := rel), true)
    else (w2.(failed := w2.failed + [rel]), false)
  }

  function WriteChunk(w: Work, rel: Path, data: Content): Work {
    if w.tmp.None? || data == [] then w
    else if w.tmp.value.closed then w.(failed := w.failed + [rel])
    else w.(tmp := Some(w.tmp.value.(data := w.tmp.value.data + data)))
  }

  function TakeChunk(w: Work, needs: set<Path>, rel: Path, data: Content, eof: bool): Work {
    if rel != w.path then
      var w1 := FinishOrFail(w);
      if rel !in needs then w1
      else
        var (w2, isOpen) := OpenFile(w1, rel);
        if isOpen then WriteAndClose(w2, rel, data, eof) else w2
    else WriteAndClose(w, rel, data, eof)
  }

  function WriteAndClose(w: Work, rel: Path, data: Content, eof: bool): Work {
    var w1 := WriteChunk(w, rel, data);
    if eof then FinishOrFail(w1) else w1
  }

  /** The chunk loop; a read error is recorded, and like the sentinel it ends the loop. */
  function Chunks(w: Work, needs: set<Path>, items: seq<Item>): Work
    decreases |items|
  {
    if items == [] then w
    else
      match items[0]
      case ReadError => w.(failed := w.failed + [CHUNK_STREAM])
      case Chunk(rel, data, eof) =>
        if rel == [] && eof then w else Chunks(TakeChunk(w, needs, rel, data, eof), needs, items[1..])
  }

  function DeleteStep(w: Work, rel: Path): Work {
    var w1 := TakeSnapshot(w, rel);
    match Remove(w1.dest, rel)
    case Removed(t) => w1.(dest := t, applied := w1.applied + [rel])
    case Missing => w1.(failed := w1.failed + [rel])
    case CannotRemove => w1.(failed := w1.failed + [rel])
  }

  function Deletes(w: Work, rels: seq<Path>): Work
    decreases |rels|
  {
    if rels == [] then w else Deletes(DeleteStep(w, rels[0]), rels[1..])
  }

  function PutMarker(w: Work, name: Content): Work {
    if w.snap != map[] && CanCreate(w.dest, MARKER) then w.(dest := w.dest[MARKER := File(name)]) else w
  }

  function StatusOf(applied: seq<Path>, failed: seq<Path>): Status {
    if failed == [] then Success else if applied != [] then Partial else AllFailed
  }

  /** The directories snapshots are kept in, by name. */
  type Snapshots = map<Content, Tree>

  function SnapshotAt(snaps: Snapshots, name: Content): Tree {
    if name in snaps then snaps[name] else map[]
  }

  function Needed(cs: ChangeSet): set<Path> {
    (set p | p in cs.create) + (set p | p in cs.update)
  }

  /** Apply as one function of the destination and this run's snapshot directory. */
  function Applied(dest: Tree, snap: Tree, cs: ChangeSet, items: seq<Item>, name: Content): Work {
    var w0 := Work(dest, snap, None, [], [], []);
    var w1 := Chunks(Mkdirs(w0, cs.mkdir), Needed(cs), items);
    var w2 := FinishFile(w1).0;
    PutMarker(Deletes(w2, cs.delete), name)
  }

  // ---- rollback.go ----

  datatype Undo = Undo(dest: Tree, applied: seq<Path>, failed: seq<Path>)

  function RestoreStep(u: Undo, snap: Tree, rel: Path): Undo {
    if Stat(snap, rel).NotExist? then u
    else
      match MkdirAll(u.dest, if rel == [] then [] else Parent(rel))
      case None => u.(failed := u.failed + [rel])
      case Some(t) =>
        var (t', ok) := CopyFile(snap, rel, t, rel);
        if ok then u.(dest := t', applied := u.applied + [rel]) else u.(dest := t', failed := u.failed + [rel])
  }

  function Restores(u: Undo, snap: Tree, rels: seq<Path>): Undo
    decreases |rels|
  {
    if rels == [] then u else Restores(RestoreStep(u, snap, rels[0]), snap, rels[1..])
  }

  function DropStep(u: Undo, rel: Path): Undo {
    match Remove(u.dest, rel)
    case Removed(t) => u.(dest := t, applied := u.applied + [rel])
    case Missing => u.(applied := u.applied + [rel])
    case CannotRemove => u.(failed := u.failed + [rel])
  }

  function Drops(u: Undo, rels: seq<Path>): Undo
    decreases |rels|
  {
    if rels == [] then u else Drops(DropStep(u, rels[0]), rels[1..])
  }

  /** Rollback with a readable marker that names `snap`. */
  function RolledBack(dest: Tree, snap: Tree, cs: ChangeSet): Undo {
    var u := Drops(Restores(Undo(dest, [], []), snap, cs.update + cs.delete), cs.create);
    u.(dest := u.dest - {MARKER})
  }

  /** Rollback: does nothing without a readable marker, else restores, drops and cleans up. */
  function Rollback(dest: Tree, snaps: Snapshots, cs: ChangeSet): (Undo, Snapshots) {
    if IsFile(dest, MARKER) then
      var name := dest[MARKER].content;
      (RolledBack(dest, SnapshotAt(snaps, name), cs), snaps - {name})
    else (Undo(dest, [], []), snaps)
  }

  /** The snapshot directory exists on disk only once something was put in it. */
  function KeepSnapshot(snaps: Snapshots, name: Content, snap: Tree): Snapshots {
    if snap == map[] then snaps else snaps[name := snap]
  }
}
