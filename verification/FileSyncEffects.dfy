/** What each phase of Apply and Rollback does to the tree, when source and destination agree
    on which paths are directories. */
module FileSyncEffects {
  import opened Wrappers
  import opened FileTree
  import opened FileSync

  /** The hypotheses of a synchronisation: real trees that agree on kinds, and a marker path
      used by nothing but Apply. */
  ghost predicate Compatible(src: Tree, dest: Tree) {
    && Closed(src) && Closed(dest)
    && (forall p :: p in src && p in dest ==> (src[p].Dir? <==> dest[p].Dir?))
    && MARKER !in src && (MARKER in dest ==> dest[MARKER].File?)
  }

  // ---- Directories ----

  /** dest with some of the directories of src added. */
  ghost predicate Grown(t: Tree, src: Tree, dest: Tree) {
    && Includes(t, dest)
    && forall q :: q in t && q !in dest ==> t[q].Dir? && q in src && src[q].Dir?
  }

  lemma GrownClosed(t: Tree, src: Tree, dest: Tree)
    requires Compatible(src, dest) && Grown(t, src, dest)
    requires forall p :: p in src && src[p].Dir? ==> IsDir(t, p)
    ensures Closed(t) && Compatible(src, t)
  {
    forall p | p in t ensures IsDir(t, Parent(p)) {
      if p in dest { assert IsDir(dest, Parent(p)); } else { assert IsDir(src, Parent(p)); }
    }
  }

  lemma MkdirGrows(t: Tree, src: Tree, dest: Tree, p: Path)
    requires Compatible(src, dest) && Grown(t, src, dest) && p in src && src[p].Dir?
    ensures MkdirAll(t, p).Some? && Grown(MkdirAll(t, p).value, src, dest)
    ensures Includes(MkdirAll(t, p).value, t) && IsDir(MkdirAll(t, p).value, p)
  {
    MkdirAllEffect(t, p);
    forall k | 0 < k <= |p| ensures p[..k] in src && src[p[..k]].Dir? {
      if k < |p| { PrefixesAreDirs(src, p, k); } else { assert p[..k] == p; }
    }
  }

  /** A state that has only created directories of src. */
  ghost predicate OnlyMade(w: Work, w': Work, src: Tree, dest: Tree, dirs: seq<Path>) {
    && w' == w.(dest := w'.dest, applied := w.applied + dirs)
    && Grown(w'.dest, src, dest) && Includes(w'.dest, w.dest)
    && forall p :: p in dirs ==> IsDir(w'.dest, p)
  }

  lemma {:induction false} MkdirsEffect(w: Work, src: Tree, dest: Tree, dirs: seq<Path>)
    requires Compatible(src, dest) && Grown(w.dest, src, dest)
    requires forall p :: p in dirs ==> p in src && src[p].Dir?
    ensures OnlyMade(w, Mkdirs(w, dirs), src, dest, dirs)
    decreases |dirs|
  {
    if dirs != [] {
      MkdirGrows(w.dest, src, dest, dirs[0]);
      var w1 := MkdirStep(w, dirs[0]);
      MkdirsEffect(w1, src, dest, dirs[1..]);
      MadeOneMore(w, w1, Mkdirs(w1, dirs[1..]), src, dest, dirs);
    }
  }

  lemma MadeOneMore(w: Work, w1: Work, w': Work, src: Tree, dest: Tree, dirs: seq<Path>)
    requires dirs != [] && w1 == w.(dest := w1.dest, applied := w.applied + [dirs[0]])
    requires Includes(w1.dest, w.dest) && IsDir(w1.dest, dirs[0]) && OnlyMade(w1, w', src, dest, dirs[1..])
    ensures OnlyMade(w, w', src, dest, dirs)
  {
    assert dirs == [dirs[0]] + dirs[1..];
    assert w.applied + [dirs[0]] + dirs[1..] == w.applied + dirs;
  }

  // ---- One file through the chunk loop ----

  /** A file can be delivered to p: its directory is there and no directory is in the way. */
  ghost predicate Ready(t: Tree, p: Path) {
    p != [] && IsDir(t, Parent(p)) && (p in t ==> t[p].File?)
  }

  /** What delivering one file amounts to, once its temp file has been renamed. */
  ghost function Delivered(w: Work, p: Path, c: Content): Work
    requires p != []
  {
    w.(dest := w.dest[p := File(c)],
       snap := if p in w.dest then TakeSnapshot(w, p).snap else w.snap,
       applied := w.applied + [p])
  }

  /** No temp file is open. */
  ghost predicate Idle(w: Work) {
    w.tmp.None? && w.path == []
  }

  /** The temp file for p holds c and closing it is all that is left. */
  ghost predicate Holding(w: Work, w0: Work, p: Path, c: Content)
    requires p != []
  {
    w == w0.(snap := Delivered(w0, p, c).snap, tmp := Some(Tmp(c, false)), path := p)
  }

  lemma MkdirAllOfDir(t: Tree, p: Path)
    requires IsDir(t, p)
    ensures MkdirAll(t, p) == Some(t)
  {
  }

  lemma FinishHolding(w: Work, w0: Work, p: Path, c: Content)
    requires Idle(w0) && Ready(w0.dest, p) && Holding(w, w0, p, c)
    ensures FinishFile(w) == (Delivered(w0, p, c), true)
  {
    MkdirAllOfDir(w0.dest, Parent(p));
  }

  lemma OpenReady(w0: Work, p: Path)
    requires Idle(w0) && Ready(w0.dest, p)
    ensures OpenFile(w0, p).1 && Holding(OpenFile(w0, p).0, w0, p, [])
  {
    MkdirAllOfDir(w0.dest, Parent(p));
  }

  /** The loop's state after a file: either flushed already by an EOF flag, or holding it. */
  ghost predicate After(w: Work, w0: Work, p: Path, c: Content)
    requires p != []
  {
    w == Delivered(w0, p, c) || Holding(w, w0, p, c)
  }

  lemma NextChunk(w: Work, needs: set<Path>, pieces: seq<Item>, tail: seq<Item>)
    requires pieces != [] && pieces[0].Chunk? && pieces[0].path != []
    ensures var x := pieces[0];
            Chunks(w, needs, pieces + tail) == Chunks(TakeChunk(w, needs, x.path, x.data, x.eof), needs,
                pieces[1..] + tail)
  {
    assert (pieces + tail)[0] == pieces[0];
    assert (pieces + tail)[1..] == pieces[1..] + tail;
  }

  lemma {:induction false} WritePieces(w: Work, w0: Work, needs: set<Path>, p: Path, c: Content, more: Content,
                                       pieces: seq<Item>, tail: seq<Item>) returns (w': Work)
    requires Idle(w0) && Ready(w0.dest, p) && Holding(w, w0, p, c) && Pieces(p, more, pieces)
    ensures Chunks(w, needs, pieces + tail) == Chunks(w', needs, tail)
    ensures After(w', w0, p, c + more)
    decreases |pieces|
  {
    if pieces == [] {
      w' := w;
      assert pieces + tail == tail && c + more == c;
    } else {
      var x := pieces[0];
      var rest := more[|x.data|..];
      var w1 := WriteChunk(w, p, x.data);
      assert Holding(w1, w0, p, c + x.data);
      assert (c + x.data) + rest == c + more by { assert more == x.data + rest; }
      assert Pieces(p, rest, pieces[1..]);
      NextChunk(w, needs, pieces, tail);
      if x.eof {
        FinishHolding(w1, w0, p, c + x.data);
        assert pieces[1..] + tail == tail;
        assert c + x.data == c + more;
        assert TakeChunk(w, needs, p, x.data, x.eof) == FinishOrFail(w1);
        w' := Delivered(w0, p, c + more);
      } else {
        w' := WritePieces(w1, w0, needs, p, c + x.data, rest, pieces[1..], tail);
      }
    }
  }

  /** A whole file: its first chunk closes the previous file and opens this one. */
  lemma DeliverPieces(w: Work, w0: Work, needs: set<Path>, d: Delivery, tail: seq<Item>) returns (w': Work)
    requires FinishFile(w) == (w0, true) && Idle(w0) && w.path != d.path
    requires IsDelivery(d) && d.path in needs && Ready(w0.dest, d.path)
    ensures Chunks(w, needs, d.pieces + tail) == Chunks(w', needs, tail)
    ensures After(w', w0, d.path, d.content)
    ensures FinishFile(w') == (Delivered(w0, d.path, d.content), true)
    ensures w'.path == [] || w'.path == d.path
  {
    var x, p := d.pieces[0], d.path;
    OpenReady(w0, p);
    var w1 := OpenFile(w0, p).0;
    var w2 := WriteChunk(w1, p, x.data);
    assert [] + x.data == x.data;
    assert Holding(w2, w0, p, x.data);
    var rest := d.content[|x.data|..];
    assert x.data + rest == d.content;
    assert TakeChunk(w, needs, p, x.data, x.eof) == if x.eof then FinishOrFail(w2) else w2;
    assert Pieces(p, rest, d.pieces[1..]);
    NextChunk(w, needs, d.pieces, tail);
    if x.eof {
      FinishHolding(w2, w0, p, x.data);
      assert d.pieces[1..] + tail == tail;
      assert x.data == d.content;
      w' := Delivered(w0, p, d.content);
    } else {
      w' := WritePieces(w2, w0, needs, p, x.data, rest, d.pieces[1..], tail);
    }
    if Holding(w', w0, p, d.content) { FinishHolding(w', w0, p, d.content); }
  }

  // ---- A whole stream ----

  /** Each file is opened at most once, is asked for, and can be delivered. */
  ghost predicate Deliverable(t: Tree, needs: set<Path>, ds: seq<Delivery>) {
    && (forall i, j :: 0 <= i < j < |ds| ==> ds[i].path != ds[j].path)
    && (forall i :: 0 <= i < |ds| ==> IsDelivery(ds[i]) && ds[i].path in needs && Ready(t, ds[i].path))
  }

  /** The stream stops: the connection closes, a read fails, or the sentinel arrives. */
  ghost predicate Stops(tail: seq<Item>) {
    tail == [] || tail[0] == ReadError || tail[0] == SENTINEL
  }

  ghost function Ended(w: Work, tail: seq<Item>): Work {
    if tail != [] && tail[0].ReadError? then w.(failed := w.failed + [CHUNK_STREAM]) else w
  }

  ghost function DeliverAll(w: Work, ds: seq<Delivery>): Work
    decreases |ds|
  {
    if ds == [] || ds[0].path == [] then w else DeliverAll(Delivered(w, ds[0].path, ds[0].content), ds[1..])
  }

  lemma ReadyStays(w: Work, needs: set<Path>, ds: seq<Delivery>)
    requires ds != [] && Deliverable(w.dest, needs, ds)
    ensures Deliverable(Delivered(w, ds[0].path, ds[0].content).dest, needs, ds[1..])
  {
    var p, t := ds[0].path, Delivered(w, ds[0].path, ds[0].content).dest;
    forall i | 0 <= i < |ds[1..]| ensures Ready(t, ds[1..][i].path) {
      assert Ready(w.dest, ds[i + 1].path) && Ready(w.dest, p);
    }
  }

  lemma {:induction false} ChunksDeliver(w: Work, w0: Work, needs: set<Path>, ds: seq<Delivery>, tail: seq<Item>)
    requires FinishFile(w) == (w0, true) && Idle(w0) && Deliverable(w0.dest, needs, ds) && Stops(tail)
    requires forall i :: 0 <= i < |ds| ==> w.path != ds[i].path
    ensures FinishFile(Chunks(w, needs, Flat(ds) + tail)).0 == Ended(DeliverAll(w0, ds), tail)
    decreases |ds|
  {
    if ds == [] {
      assert Flat(ds) + tail == tail;
      FinishEnded(w, w0, tail);
    } else {
      var d := ds[0];
      assert Flat(ds) + tail == d.pieces + (Flat(ds[1..]) + tail);
      var w' := DeliverPieces(w, w0, needs, d, Flat(ds[1..]) + tail);
      ReadyStays(w0, needs, ds);
      ChunksDeliver(w', Delivered(w0, d.path, d.content), needs, ds[1..], tail);
    }
  }

  lemma FinishEnded(w: Work, w0: Work, tail: seq<Item>)
    requires FinishFile(w) == (w0, true) && Stops(tail)
    ensures forall needs :: FinishFile(Chunks(w, needs, tail)).0 == Ended(w0, tail)
  {
  }

  /** What a stream carries, by path. */
  ghost function Carried(ds: seq<Delivery>): map<Path, Content>
    decreases |ds|
  {
    if ds == [] then map[] else map[ds[0].path := ds[0].content] + Carried(ds[1..])
  }

  ghost function Overlay(t: Tree, m: map<Path, Content>): Tree {
    t + map p | p in m :: File(m[p])
  }

  ghost function Paths(ds: seq<Delivery>): seq<Path> {
    if ds == [] then [] else [ds[0].path] + Paths(ds[1..])
  }

  lemma {:induction false} DeliverAllDest(w: Work, needs: set<Path>, ds: seq<Delivery>)
    requires Deliverable(w.dest, needs, ds)
    ensures DeliverAll(w, ds).dest == Overlay(w.dest, Carried(ds))
    ensures DeliverAll(w, ds).failed == w.failed && DeliverAll(w, ds).tmp == w.tmp && DeliverAll(w, ds).path == w.path
    decreases |ds|
  {
    if ds != [] {
      assert IsDelivery(ds[0]);
      ReadyStays(w, needs, ds);
      DeliverAllDest(Delivered(w, ds[0].path, ds[0].content), needs, ds[1..]);
      OverlayStep(w.dest, ds[0].path, ds[0].content, Carried(ds[1..]));
    } else {
      assert Overlay(w.dest, map[]) == w.dest;
    }
  }

  lemma {:induction false} DeliverAllPaths(w: Work, ds: seq<Delivery>)
    requires forall i :: 0 <= i < |ds| ==> ds[i].path != []
    ensures DeliverAll(w, ds).applied == w.applied + Paths(ds)
    decreases |ds|
  {
    if ds != [] {
      DeliverAllPaths(Delivered(w, ds[0].path, ds[0].content), ds[1..]);
      assert w.applied + [ds[0].path] + Paths(ds[1..]) == w.applied + Paths(ds);
    }
  }

  lemma OverlayStep(t: Tree, p: Path, c: Content, m: map<Path, Content>)
    ensures Overlay(t[p := File(c)], m) == Overlay(t, map[p := c] + m)
  {
  }

  lemma {:induction false} CarriedAt(ds: seq<Delivery>, i: nat)
    requires i < |ds| && forall k, j :: 0 <= k < j < |ds| ==> ds[k].path != ds[j].path
    ensures ds[i].path in Carried(ds) && Carried(ds)[ds[i].path] == ds[i].content
    decreases |ds|
  {
    if i > 0 {
      CarriedAt(ds[1..], i - 1);
    } else {
      CarriedOnly(ds[1..], ds[0].path);
    }
  }

  lemma {:induction false} CarriedOnly(ds: seq<Delivery>, p: Path)
    ensures p in Carried(ds) <==> exists i :: 0 <= i < |ds| && ds[i].path == p
    decreases |ds|
  {
    if ds != [] {
      CarriedOnly(ds[1..], p);
      if p in Carried(ds[1..]) {
        var i :| 0 <= i < |ds[1..]| && ds[1..][i].path == p;
        assert ds[i + 1].path == p;
      }
      if i :| 0 <= i < |ds| && ds[i].path == p && i > 0 {
        assert ds[1..][i - 1].path == p;
      }
    }
  }

  // ---- Snapshots ----

  /** A snapshot directory holds nothing but entries of the original tree. */
  lemma SnapshotTaken(w: Work, base: Tree, rel: Path)
    requires Closed(base) && Includes(base, w.snap)
    requires IsFile(base, rel) && IsFile(w.dest, rel) && w.dest[rel] == base[rel]
    ensures var w' := TakeSnapshot(w, rel);
            && w' == w.(snap := w'.snap) && Includes(base, w'.snap)
            && w.snap.Keys + {rel} <= w'.snap.Keys
  {
    var p := Parent(rel);
    MkdirAllEffect(w.snap, p);
    forall k | 0 < k <= |p| ensures p[..k] in base && base[p[..k]].Dir? {
      PrefixesAreDirs(base, rel, k);
      assert p[..k] == rel[..k];
    }
  }

  lemma {:induction false} DeliverAllSnap(w: Work, base: Tree, needs: set<Path>, ds: seq<Delivery>)
    requires Closed(base) && Includes(base, w.snap) && Deliverable(w.dest, needs, ds)
    requires forall i :: 0 <= i < |ds| ==> SameAt(w.dest, base, ds[i].path)
    ensures var s := DeliverAll(w, ds).snap;
            && Includes(base, s) && w.snap.Keys <= s.Keys
            && (forall i :: 0 <= i < |ds| && ds[i].path in base ==> ds[i].path in s)
            && ((forall i :: 0 <= i < |ds| ==> ds[i].path !in base) ==> s == w.snap)
    decreases |ds|
  {
    if ds != [] {
      var p := ds[0].path;
      assert IsDelivery(ds[0]) && Ready(w.dest, p) && SameAt(w.dest, base, p);
      if p in base { SnapshotTaken(w, base, p); }
      var w' := Delivered(w, p, ds[0].content);
      ReadyStays(w, needs, ds);
      forall i | 0 <= i < |ds[1..]| ensures SameAt(w'.dest, base, ds[1..][i].path) {
        assert SameAt(w.dest, base, ds[i + 1].path);
      }
      DeliverAllSnap(w', base, needs, ds[1..]);
      forall i | 0 <= i < |ds| && ds[i].path in base ensures ds[i].path in DeliverAll(w, ds).snap {
        if i > 0 { assert ds[1..][i - 1].path in base; }
      }
    }
  }

  ghost predicate SameAt(t: Tree, base: Tree, p: Path) {
    (p in t <==> p in base) && (p in t ==> t[p] == base[p])
  }

  // ---- Deletions ----

  ghost function Members(rels: seq<Path>): set<Path> {
    set p | p in rels
  }

  lemma MembersRest(rels: seq<Path>)
    requires rels != [] && Distinct(rels)
    ensures Members(rels) == {rels[0]} + Members(rels[1..])
    ensures forall q :: q in rels[1..] ==> q in rels && q != rels[0]
    ensures Distinct(rels[1..])
  {
    assert rels == [rels[0]] + rels[1..];
  }

  lemma DeleteOne(w: Work, base: Tree, p: Path)
    requires Closed(base) && Includes(base, w.snap)
    requires IsFile(base, p) && IsFile(w.dest, p) && w.dest[p] == base[p]
    ensures var w1 := DeleteStep(w, p);
            && w1.dest == w.dest - {p} && w1.failed == w.failed && w1.applied == w.applied + [p]
            && Includes(base, w1.snap) && w.snap.Keys + {p} <= w1.snap.Keys
  {
    SnapshotTaken(w, base, p);
  }

  lemma {:induction false} DeletesEffect(w: Work, base: Tree, rels: seq<Path>)
    requires Closed(base) && Includes(base, w.snap) && Distinct(rels)
    requires forall p :: p in rels ==> IsFile(base, p) && IsFile(w.dest, p) && w.dest[p] == base[p]
    ensures var w' := Deletes(w, rels);
            && w'.dest == w.dest - Members(rels) && w'.failed == w.failed
            && Includes(base, w'.snap) && w.snap.Keys + Members(rels) <= w'.snap.Keys
            && (rels == [] ==> w'.snap == w.snap)
    decreases |rels|
  {
    if rels != [] {
      var w1 := DeleteStep(w, rels[0]);
      MembersRest(rels);
      DeleteOne(w, base, rels[0]);
      DeletesEffect(w1, base, rels[1..]);
      assert w1.dest - Members(rels[1..]) == w.dest - Members(rels);
    }
  }

  lemma DeleteFile(w: Work, p: Path)
    requires IsFile(w.dest, p) && p != []
    ensures DeleteStep(w, p).dest == w.dest - {p} && DeleteStep(w, p).applied == w.applied + [p]
  {
  }

  lemma {:induction false} DeletesApplied(w: Work, rels: seq<Path>)
    requires Distinct(rels) && forall p :: p in rels ==> IsFile(w.dest, p) && p != []
    ensures Deletes(w, rels).applied == w.applied + rels
    decreases |rels|
  {
    if rels != [] {
      var w1, rest := DeleteStep(w, rels[0]), rels[1..];
      DeleteFile(w, rels[0]);
      MembersRest(rels);
      DeletesApplied(w1, rest);
      AppendRest(w.applied, rels);
    }
  }

  lemma AppendRest(done: seq<Path>, rels: seq<Path>)
    requires rels != []
    ensures done + [rels[0]] + rels[1..] == done + rels
  {
  }
}
