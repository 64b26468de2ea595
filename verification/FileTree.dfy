/** The part of a filesystem that file.sync touches: a directory tree as a map from relative
    paths to entries, with the os calls the primitive makes and the errors they return. */
module FileTree {
  import opened Wrappers

  /** Components below the root; the root itself is the empty path and always exists. */
  type Path = seq<string>

  type Content = seq<bv8>

  datatype Entry = Dir | File(content: Content)

  type Tree = map<Path, Entry>

  function Parent(p: Path): Path
    requires p != []
  {
    p[..|p| - 1]
  }

  predicate IsDir(t: Tree, p: Path) {
    p == [] || (p in t && t[p].Dir?)
  }

  predicate IsFile(t: Tree, p: Path) {
    p in t && t[p].File?
  }

  /** Every entry sits in a directory. */
  ghost predicate Closed(t: Tree) {
    [] !in t && forall p :: p in t ==> IsDir(t, Parent(p))
  }

  /** Some proper prefix of p is a file. */
  predicate UnderFile(t: Tree, p: Path) {
    exists k :: 0 < k < |p| && IsFile(t, p[..k])
  }

  /** os.Stat: present, absent, or another error (a file where a directory is needed). */
  datatype Presence = Found | NotExist | NotDir

  function Stat(t: Tree, p: Path): Presence {
    if p == [] || p in t then Found else if UnderFile(t, p) then NotDir else NotExist
  }

  /** os.MkdirAll: creates the missing directories on the way, or fails at a file. */
  function MkdirAll(t: Tree, p: Path): Option<Tree> {
    if p == [] then Some(t)
    else if p in t then if t[p].Dir? then Some(t) else None
    else
      match MkdirAll(t, Parent(p))
      case None => None
      case Some(t') => Some(t'[p := Dir])
  }

  /** The tree after a MkdirAll whose error is ignored. */
  function TryMkdirAll(t: Tree, p: Path): Tree {
    match MkdirAll(t, p)
    case None => t
    case Some(t') => t'
  }

  /** A file can be created (or truncated, or renamed onto) at p. */
  predicate CanCreate(t: Tree, p: Path) {
    p != [] && IsDir(t, Parent(p)) && (p in t ==> t[p].File?)
  }

  /** copyFileSimple: a missing source fails before creating; a directory source fails after. */
  function CopyFile(src: Tree, from: Path, dst: Tree, to: Path): (Tree, bool) {
    if from !in src || !CanCreate(dst, to) then (dst, false)
    else
      match src[from]
      case File(c) => (dst[to := File(c)], true)
      case Dir => (dst[to := File([])], false)
  }

  datatype Removal = Removed(t: Tree) | Missing | CannotRemove

  /** os.Remove: files and empty directories. */
  function Remove(t: Tree, p: Path): Removal {
    if p in t then
      if t[p].File? || (forall q :: q in t && q != [] ==> Parent(q) != p) then Removed(t - {p}) else CannotRemove
    else if Stat(t, p).NotExist? then Missing else CannotRemove
  }

  /** t holds everything s holds. */
  ghost predicate Includes(t: Tree, s: Tree) {
    forall p :: p in s ==> p in t && t[p] == s[p]
  }

  /** MkdirAll adds nothing but directories on the way to p, and only fails at a file. */
  lemma {:induction false} MkdirAllEffect(t: Tree, p: Path)
    ensures MkdirAll(t, p).None? ==> exists k :: 0 < k <= |p| && IsFile(t, p[..k])
    ensures MkdirAll(t, p).Some? ==>
      var t' := MkdirAll(t, p).value;
      && Includes(t', t) && IsDir(t', p)
      && forall q :: q in t' && q !in t ==> t'[q].Dir? && exists k :: 0 < k <= |p| && q == p[..k]
    decreases |p|
  {
    if p != [] {
      assert p[..|p|] == p;
      if p !in t {
        var q := Parent(p);
        MkdirAllEffect(t, q);
        assert forall k :: 0 < k <= |q| ==> q[..k] == p[..k];
      }
    }
  }

  lemma {:induction false} PrefixesAreDirs(t: Tree, p: Path, k: nat)
    requires Closed(t) && p in t && k < |p|
    ensures IsDir(t, p[..k])
    decreases |p| - k
  {
    if k + 1 == |p| {
      assert p[..k] == Parent(p);
    } else {
      PrefixesAreDirs(t, p, k + 1);
      assert Parent(p[..k + 1]) == p[..k];
    }
  }
}
