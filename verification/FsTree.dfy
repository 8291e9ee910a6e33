/**
 * The directory tree the generate pipeline looks at, standing in for
 * `os.listdir`, `os.path.isfile` and `os.path.isdir`.  A snapshot is a
 * finite tree of entries mounted at a root path; a path names an entry when
 * it is spelled exactly as `os.path.join` builds it from the root.
 */
module FsTree {
  import opened Common
  import opened Text

  /**
   * A directory entry: a regular file, or a directory with its entries in
   * listing order.  A directory that is not `readable` exists but can be
   * neither listed nor searched (its permissions deny both, as mode 000 does).
   */
  datatype Node = File(name: string) | Dir(name: string, children: seq<Node>, readable: bool)

  /** A whole directory tree: `root` is the directory found at `rootPath`. */
  datatype Snapshot = Snapshot(rootPath: Path, root: Node)

  /** How the kernel resolves a path: to an entry, to nothing, or not at all. */
  datatype Lookup =
    | Found(node: Node)
    | Missing     // ENOENT
    | Denied      // EACCES: the path runs through a directory that cannot be searched
    | NotDir      // ENOTDIR: the path runs through a regular file

  /**
   * Resolving `target` inside the tree `t` found at `path`: a path below
   * `path` is looked up among the entries, which requires `t` to be a
   * directory that may be searched; the first entry that resolves it wins.
   */
  function Resolve(path: Path, t: Node, target: Path): Lookup
    decreases t, 1
  {
    if path == target then Found(t)
    else if !Under(path, target) then Missing
    else if t.File? then NotDir
    else if !t.readable then Denied
    else ResolveAmong(path, t, 0, target)
  }

  /** The first entry of directory `t` from index `k` on under which `target` resolves to something. */
  function ResolveAmong(path: Path, t: Node, k: nat, target: Path): Lookup
    requires t.Dir? && k <= |t.children|
    decreases t, 0, |t.children| - k
  {
    if k == |t.children| then Missing
    else
      var c := t.children[k];
      match Resolve(Join(path, c.name), c, target)
      case Missing => ResolveAmong(path, t, k + 1, target)
      case r => r
  }

  /** The entry a path names and the caller may reach; the empty path names nothing. */
  function Find(snap: Snapshot, target: Path): Option<Node> {
    if target == "" then None
    else match Resolve(snap.rootPath, snap.root, target)
      case Found(n) => Some(n)
      case _ => None
  }

  /** `os.path.isfile(p)`: false also for a path that cannot be reached. */
  predicate IsRegularFile(snap: Snapshot, p: Path) {
    var n := Find(snap, p);
    n.Some? && n.value.File?
  }

  /** The names of a directory's entries, in listing order. */
  function Names(cs: seq<Node>): seq<string> {
    seq(|cs|, i requires 0 <= i < |cs| => cs[i].name)
  }

  /**
   * `os.listdir(p)`: fails on the empty and on a missing path, on a path
   * that runs through a regular file or through a directory that cannot be
   * searched, on a regular file and on an unreadable directory.
   */
  function ListDir(snap: Snapshot, p: Path): Result<seq<string>> {
    if p == "" then Err(NotFound(p))
    else match Resolve(snap.rootPath, snap.root, p)
      case Missing => Err(NotFound(p))
      case Denied => Err(PermissionDenied(p))
      case NotDir => Err(NotADirectory(p))
      case Found(File(_)) => Err(NotADirectory(p))
      case Found(Dir(_, cs, readable)) => if readable then Ok(Names(cs)) else Err(PermissionDenied(p))
  }

  /** Every entry below `t` has a proper name: non-empty and free of `/`. */
  predicate WellNamed(t: Node)
    decreases t
  {
    t.Dir? ==> forall i :: 0 <= i < |t.children| ==> NameOk(t.children[i].name) && WellNamed(t.children[i])
  }

  /**
   * Everything below a regular file or an unreadable directory is blocked:
   * resolving a path below `q` runs into the entry at `q` and stops there,
   * with ENOTDIR for a file and EACCES for a directory.
   */
  lemma {:induction false} BlockedBelow(path: Path, t: Node, q: Path, p: Path)
    requires WellNamed(t) && q != [] && q[|q| - 1] != '/' && Under(q, p)
    requires Resolve(path, t, q).Found?
    requires Resolve(path, t, q).node.File? || !Resolve(path, t, q).node.readable
    ensures Resolve(path, t, p) == if Resolve(path, t, q).node.File? then NotDir else Denied
    decreases t, 1
  {
    if path != q {
      UnderTrans(path, q, p);
      BlockedAmong(path, t, 0, q, p);
    }
  }

  lemma {:induction false} BlockedAmong(path: Path, t: Node, k: nat, q: Path, p: Path)
    requires t.Dir? && k <= |t.children| && WellNamed(t)
    requires q != [] && q[|q| - 1] != '/' && Under(path, q) && Under(q, p)
    requires ResolveAmong(path, t, k, q).Found?
    requires ResolveAmong(path, t, k, q).node.File? || !ResolveAmong(path, t, k, q).node.readable
    ensures ResolveAmong(path, t, k, p) == if ResolveAmong(path, t, k, q).node.File? then NotDir else Denied
    decreases t, 0, |t.children| - k
  {
    var c := t.children[k];
    var cp := Join(path, c.name);
    JoinName(path, c.name);
    if Resolve(cp, c, q).Missing? {
      assert !Under(q, cp) by {
        if Under(q, cp) {
          NothingBetween(path, q, c.name);
        }
      }
      MissingBelow(cp, c, q, p);
      BlockedAmong(path, t, k + 1, q, p);
    } else {
      BlockedBelow(cp, c, q, p);
    }
  }

  /** A path that resolves to nothing has nothing below it either. */
  lemma {:induction false} MissingBelow(x: Path, c: Node, q: Path, p: Path)
    requires WellNamed(c) && x != [] && x[|x| - 1] != '/' && q != [] && q[|q| - 1] != '/' && Under(q, p)
    requires x != q && !Under(q, x) && Resolve(x, c, q) == Missing
    ensures Resolve(x, c, p) == Missing
    decreases c, 1
  {
    if Under(x, p) {
      UnderOrdered(x, q, p);
      MissingAmong(x, c, 0, q, p);
    }
  }

  lemma {:induction false} MissingAmong(x: Path, c: Node, k: nat, q: Path, p: Path)
    requires c.Dir? && k <= |c.children| && WellNamed(c)
    requires q != [] && q[|q| - 1] != '/' && Under(x, q) && Under(q, p)
    requires ResolveAmong(x, c, k, q) == Missing
    ensures ResolveAmong(x, c, k, p) == Missing
    decreases c, 0, |c.children| - k
  {
    if k < |c.children| {
      var d := c.children[k];
      var dp := Join(x, d.name);
      JoinName(x, d.name);
      assert !Under(q, dp) by {
        if Under(q, dp) {
          NothingBetween(x, q, d.name);
        }
      }
      MissingBelow(dp, d, q, p);
      MissingAmong(x, c, k + 1, q, p);
    }
  }

  /**
   * `os.listdir` below a regular file raises ENOTDIR, and below a directory
   * that can be neither listed nor searched it raises EACCES, for every path
   * below it, whether or not an entry exists there.
   */
  lemma ListingBelowBlocked(snap: Snapshot, q: Path, p: Path)
    requires WellNamed(snap.root) && q != [] && q[|q| - 1] != '/' && Under(q, p)
    requires Find(snap, q).Some? && (Find(snap, q).value.File? || !Find(snap, q).value.readable)
    ensures ListDir(snap, p) == Err(if Find(snap, q).value.File? then NotADirectory(p) else PermissionDenied(p))
  {
    BlockedBelow(snap.rootPath, snap.root, q, p);
  }
}
