/**
  `CacheItem::purge` on a file system of paths: a lone item is truncated or
  unlinked, a directory item is walked and its contents removed, except that
  regular files in a tombstoned directory are only truncated, which makes the
  rmdir of everything above them fail. Truncating follows symbolic links, so a
  lone tombstoned link empties the file that it leads to; and it empties the
  inode, so all other names of the file lose their contents with it.
*/
module Purge {
  import opened Wrappers
  import opened Fts
  import opened CacheItems
  import opened CacheCoverage

  /** The text of a symbolic link; its names may be "." and "..", and other kinds of file have none. */
  datatype Link = Link(absolute: bool, names: Path)

  const NO_LINK := Link(false, [])

  /** What is at a path. Hard links to one file share its inode number, and with it whether it is `empty`. */
  datatype Inode = Plain(kind: Kind, empty: bool, link: Link, ino: nat) | Folder(tombstone: bool)

  type Files = map<Path, Inode>

  // ----- Following links

  /** How many links the kernel follows before it gives up. */
  const MAX_LINKS: nat := 40

  function DirOf(p: Path): Path {
    if p == [] then [] else ParentOf(p)
  }

  /** Where the names in `rest` lead from the directory `dir`. */
  function Resolve(fs: Files, dir: Path, rest: Path, links: nat): (r: Option<Path>)
    ensures r.Some? ==> r.value in fs
    decreases links, |rest|, 0
  {
    if dir !in fs || !fs[dir].Folder? then None
    else if rest == [] then Some(dir)
    else if rest[0] == "." then Resolve(fs, dir, rest[1..], links)
    else if rest[0] == ".." then Resolve(fs, DirOf(dir), rest[1..], links)
    else Reach(fs, dir + [rest[0]], rest[1..], links)
  }

  /** Where the names in `rest` lead from the entry at `p`, which is followed when it is a link. */
  function Reach(fs: Files, p: Path, rest: Path, links: nat): (r: Option<Path>)
    ensures r.Some? ==> r.value in fs
    decreases links, |rest|, 1
  {
    if p !in fs then None
    else if fs[p].Folder? then Resolve(fs, p, rest, links)
    else if fs[p].kind == Symlink then
      if links == 0 then None
      else Resolve(fs, if fs[p].link.absolute then [] else DirOf(p), fs[p].link.names + rest, links - 1)
    else if rest == [] then Some(p)
    else None
  }

  // ----- The system calls

  predicate Holds(fs: Files, p: Path) {
    exists q <- fs.Keys :: p < q
  }

  predicate CanUnlink(fs: Files, p: Path) {
    p in fs && fs[p].Plain?
  }

  predicate CanRmdir(fs: Files, p: Path) {
    p in fs && fs[p].Folder? && !Holds(fs, p)
  }

  predicate IsFile(fs: Files, p: Path) {
    p in fs && fs[p].Plain? && fs[p].kind == Regular
  }

  /** The regular file that truncating `p` empties, if it leads to one. */
  function TruncateTarget(fs: Files, p: Path): (r: Option<Path>)
    ensures r.Some? ==> IsFile(fs, r.value)
    ensures IsFile(fs, p) ==> r == Some(p)
  {
    var r := Reach(fs, p, [], MAX_LINKS);
    if r.Some? && IsFile(fs, r.value) then r else None
  }

  predicate CanTruncate(fs: Files, p: Path) {
    TruncateTarget(fs, p).Some?
  }

  /** A name, once the files with these inode numbers were emptied. */
  function Drained(i: Inode, inos: set<nat>): Inode {
    if i.Plain? && i.kind == Regular && i.ino in inos then i.(empty := true) else i
  }

  /** Empties the inode, whatever names it has. */
  function Truncate(fs: Files, p: Path): Files {
    var r := TruncateTarget(fs, p);
    if r.Some? then map q | q in fs :: Drained(fs[q], {fs[r.value].ino}) else fs
  }

  function Unlink(fs: Files, p: Path): Files {
    if CanUnlink(fs, p) then fs - {p} else fs
  }

  function Rmdir(fs: Files, p: Path): Files {
    if CanRmdir(fs, p) then fs - {p} else fs
  }

  // ----- The walk over a directory item

  datatype Purging = Purging(files: Files, number: map<Path, bool>, ok: bool)

  /** fts_number, zero for an entry nobody has set it for. */
  function NumberOf(number: map<Path, bool>, p: Path): bool {
    p in number && number[p]
  }

  function ParentNumber(s: Purging, p: Entry): bool {
    p.path != [] && p.level > 0 && NumberOf(s.number, ParentOf(p.path))
  }

  function StepPurge(tombstone: bool, s: Purging, p: Entry): (r: Purging) {
    match p.info
    case FTS_D =>
      var n := if p.level == 0 then tombstone else ParentNumber(s, p) || (p.node.Dir? && p.node.xattrs.tombstone);
      s.(number := s.number[p.path := n])
    case FTS_F =>
      if ParentNumber(s, p) then Purging(Truncate(s.files, p.path), s.number, s.ok && CanTruncate(s.files, p.path))
      else Purging(Unlink(s.files, p.path), s.number, s.ok && CanUnlink(s.files, p.path))
    case FTS_DP => Purging(Rmdir(s.files, p.path), s.number, s.ok && CanRmdir(s.files, p.path))
    case _ => Purging(Unlink(s.files, p.path), s.number, s.ok && CanUnlink(s.files, p.path))
  }

  function Step(tombstone: bool): (Purging, Entry) -> (Purging, bool) {
    (s: Purging, p: Entry) => (StepPurge(tombstone, s, p), false)
  }

  // ----- What a purge leaves behind, path by path

  /** Is the directory `d` tombstoned, given that the purged directory `p` counts as `tombstone`? */
  ghost predicate Flag(fs: Files, p: Path, tombstone: bool, d: Path)
    decreases |d|
  {
    if |d| <= |p| then tombstone
    else Flag(fs, p, tombstone, ParentOf(d)) || (d in fs && fs[d].Folder? && fs[d].tombstone)
  }

  /** A regular file below `p` in a tombstoned directory. */
  ghost predicate Spared(fs: Files, p: Path, tombstone: bool, r: Path) {
    IsFile(fs, r) && p < r && Flag(fs, p, tombstone, ParentOf(r))
  }

  /** A path survives the purge of `p` when it is, or contains, a spared file. */
  ghost predicate Survives(fs: Files, p: Path, tombstone: bool, q: Path) {
    exists r <- fs.Keys :: q <= r && Spared(fs, p, tombstone, r)
  }

  /** The inodes of the spared files: the purge empties them. */
  ghost function SparedInos(fs: Files, p: Path, tombstone: bool): set<nat> {
    set r <- fs.Keys | Spared(fs, p, tombstone, r) :: fs[r].ino
  }

  /** An entry without the contents of a regular file. */
  function Spent(i: Inode): Inode {
    if i.Plain? && i.kind == Regular then i.(empty := true) else i
  }

  ghost predicate Same(a: Files, b: Files, q: Path) {
    (q in a <==> q in b) && (q in a ==> a[q] == b[q])
  }

  /** Nothing is new, and what is left is as before but for the files with these inode numbers, which are empty. */
  ghost predicate Drains(before: Files, after: Files, inos: set<nat>) {
    forall q <- after.Keys :: q in before && after[q] == Drained(before[q], inos)
  }

  /** Does the purge take `q` away? */
  ghost predicate Removed(fs: Files, p: Path, directory: bool, tombstone: bool, q: Path) {
    && p in fs
    && if directory then p <= q && !Survives(fs, p, tombstone, q) else !tombstone && fs[p].Plain? && q == p
  }

  /** The inodes that the purge empties. */
  ghost function Truncated(fs: Files, p: Path, directory: bool, tombstone: bool): set<nat> {
    var r := TruncateTarget(fs, p);
    if p !in fs then {}
    else if directory then SparedInos(fs, p, tombstone)
    else if tombstone && r.Some? then {fs[r.value].ino}
    else {}
  }

  /** What purging an item does to the file system. */
  ghost predicate PurgeEffect(fs: Files, after: Files, p: Path, directory: bool, tombstone: bool) {
    && (forall q :: q in after <==> q in fs && !Removed(fs, p, directory, tombstone, q))
    && Drains(fs, after, Truncated(fs, p, directory, tombstone))
  }

  /** A lone item is truncated or unlinked. */
  lemma LoneEffect(fs: Files, p: Path, tombstone: bool)
    ensures var after := if p !in fs then fs else if tombstone then Truncate(fs, p) else Unlink(fs, p);
            PurgeEffect(fs, after, p, false, tombstone)
  {
  }

  /** Whether all system calls of the purge succeed. */
  ghost predicate PurgeWorks(fs: Files, p: Path, directory: bool, tombstone: bool) {
    if directory then p in fs ==> !Survives(fs, p, tombstone, p)
    else if tombstone then CanTruncate(fs, p)
    else CanUnlink(fs, p)
  }

  // ----- The directory listing the walk sees

  /** `n` is what is at `path`: same kinds, same marks, exactly the same entries below. */
  ghost predicate Mirrors(fs: Files, n: Node, path: Path)
    decreases n
  {
    && path in fs
    && match n {
         case Leaf(_, kind, _) =>
           fs[path].Plain? && fs[path].kind == kind && !Holds(fs, path)
         case Dir(_, _, xattrs, children) =>
           && fs[path] == Folder(xattrs.tombstone)
           && DistinctAll(children)
           && (forall q <- fs.Keys | path < q :: Below(children, path, q))
           && (forall c <- children :: Mirrors(fs, c, path + [c.name]))
       }
  }

  // ----- The walk does what PurgeEffect says

  /** The purge under way: of `p` as `tombstone`, in a file system that was `fs`. */
  datatype Job = Job(fs: Files, p: Path, tombstone: bool)

  ghost predicate Lives(j: Job, q: Path) {
    Survives(j.fs, j.p, j.tombstone, q)
  }

  /** The inodes of the spared files at and below a path. */
  ghost function InosAt(j: Job, path: Path): set<nat> {
    set r <- j.fs.Keys | path <= r && Spared(j.fs, j.p, j.tombstone, r) :: j.fs[r].ino
  }

  ghost function InosAmong(j: Job, children: seq<Node>, path: Path): set<nat> {
    set r <- j.fs.Keys | Below(children, path, r) && Spared(j.fs, j.p, j.tombstone, r) :: j.fs[r].ino
  }

  /** Both have the same at `q`, up to the contents of a regular file. */
  ghost predicate Alike(a: Files, b: Files, q: Path) {
    (q in a <==> q in b) && (q in a ==> Spent(a[q]) == Spent(b[q]))
  }

  ghost predicate NumbersKept(a: map<Path, bool>, b: map<Path, bool>, depth: nat) {
    forall q: Path :: |q| < depth ==> NumberOf(a, q) == NumberOf(b, q)
  }

  ghost predicate NodePurged(j: Job, n: Node, path: Path, s: Purging, s': Purging) {
    && (forall q | path <= q :: q in s'.files <==> Lives(j, q))
    && (forall q | !(path <= q) :: q in s'.files <==> q in s.files)
    && Drains(s.files, s'.files, InosAt(j, path))
    && NumbersKept(s.number, s'.number, |path|)
    && s'.ok == (s.ok && (n.Dir? ==> !Lives(j, path)))
  }

  ghost predicate ChildrenPurged(j: Job, children: seq<Node>, path: Path, s: Purging, s': Purging) {
    && (forall q | Below(children, path, q) :: q in s'.files <==> Lives(j, q))
    && (forall q | !Below(children, path, q) :: q in s'.files <==> q in s.files)
    && Drains(s.files, s'.files, InosAmong(j, children, path))
    && NumbersKept(s.number, s'.number, |path| + 1)
    && s'.ok == (s.ok && forall c <- children | c.Dir? :: !Lives(j, path + [c.name]))
  }

  /** Only what is there lives: it is, or contains, a spared file. */
  lemma LivingIsThere(j: Job, n: Node, path: Path)
    requires Mirrors(j.fs, n, path)
    ensures n.Leaf? ==> (Lives(j, path) <==> Spared(j.fs, j.p, j.tombstone, path))
    ensures n.Leaf? ==> forall q | path < q :: q !in j.fs && !Lives(j, q)
  {
    if n.Leaf? {
      assert forall r <- j.fs.Keys :: path <= r ==> r == path;
    }
  }

  lemma {:induction false} PurgeNode(j: Job, n: Node, path: Path, level: nat, parent: Stat, s: Purging)
    requires level > 0 && j.p < path && Mirrors(j.fs, n, path)
    requires NumberOf(s.number, ParentOf(path)) == Flag(j.fs, j.p, j.tombstone, ParentOf(path))
    requires forall q | path <= q :: Alike(j.fs, s.files, q)
    ensures NodePurged(j, n, path, s, Run(Step(j.tombstone), [Enter(n, path, level, parent)], s))
    decreases n, 1
  {
    if n.Leaf? {
      PurgeLeaf(j, n, path, level, parent, s);
    } else {
      PurgeDir(j, n, path, level, parent, s);
    }
  }

  lemma PurgeLeaf(j: Job, n: Node, path: Path, level: nat, parent: Stat, s: Purging)
    requires n.Leaf? && level > 0 && j.p < path && Mirrors(j.fs, n, path)
    requires NumberOf(s.number, ParentOf(path)) == Flag(j.fs, j.p, j.tombstone, ParentOf(path))
    requires forall q | path <= q :: Alike(j.fs, s.files, q)
    ensures NodePurged(j, n, path, s, Run(Step(j.tombstone), [Enter(n, path, level, parent)], s))
  {
    LeafStep(j, n, path, level, parent, s);
    if Spared(j.fs, j.p, j.tombstone, path) {
      LeafTruncated(s.files, path);
      LeafPurged(j, n, path, s, Purging(Truncate(s.files, path), s.number, s.ok));
    } else {
      LeafUnlinked(s.files, path);
      LeafPurged(j, n, path, s, Purging(Unlink(s.files, path), s.number, s.ok));
    }
  }

  /** The walk truncates a spared file and unlinks any other. */
  lemma LeafStep(j: Job, n: Node, path: Path, level: nat, parent: Stat, s: Purging)
    requires n.Leaf? && level > 0 && j.p < path && Mirrors(j.fs, n, path)
    requires NumberOf(s.number, ParentOf(path)) == Flag(j.fs, j.p, j.tombstone, ParentOf(path))
    requires Alike(j.fs, s.files, path)
    ensures path in s.files && s.files[path].Plain? && s.files[path].ino == j.fs[path].ino
    ensures Spared(j.fs, j.p, j.tombstone, path) ==> IsFile(s.files, path)
    ensures Run(Step(j.tombstone), [Enter(n, path, level, parent)], s)
            == if Spared(j.fs, j.p, j.tombstone, path) then Purging(Truncate(s.files, path), s.number, s.ok)
               else Purging(Unlink(s.files, path), s.number, s.ok)
  {
    RunLeaf(Step(j.tombstone), Enter(n, path, level, parent), s);
    assert Spent(s.files[path]) == Spent(j.fs[path]);
  }

  lemma LeafPurged(j: Job, n: Node, path: Path, s: Purging, s': Purging)
    requires n.Leaf? && j.p < path && Mirrors(j.fs, n, path)
    requires forall q | path <= q :: Alike(j.fs, s.files, q)
    requires var spared := Spared(j.fs, j.p, j.tombstone, path);
             && s'.files.Keys == (if spared then s.files.Keys else s.files.Keys - {path})
             && Drains(s.files, s'.files, if spared then {j.fs[path].ino} else {})
    requires s'.number == s.number && s'.ok == s.ok
    ensures NodePurged(j, n, path, s, s')
  {
    LivingIsThere(j, n, path);
    LeafInos(j, n, path);
    assert Alike(j.fs, s.files, path);
    forall q | path <= q ensures q in s'.files <==> Lives(j, q) {
      assert Alike(j.fs, s.files, q);
      assert q == path || path < q;
    }
  }

  lemma LeafTruncated(files: Files, path: Path)
    requires IsFile(files, path)
    ensures CanTruncate(files, path) && Truncate(files, path).Keys == files.Keys
    ensures Drains(files, Truncate(files, path), {files[path].ino})
  {
  }

  lemma LeafUnlinked(files: Files, path: Path)
    requires path in files && files[path].Plain?
    ensures CanUnlink(files, path) && Unlink(files, path).Keys == files.Keys - {path}
    ensures Drains(files, Unlink(files, path), {})
  {
  }

  lemma LeafInos(j: Job, n: Node, path: Path)
    requires n.Leaf? && Mirrors(j.fs, n, path)
    ensures InosAt(j, path) == if Spared(j.fs, j.p, j.tombstone, path) then {j.fs[path].ino} else {}
  {
    assert forall r <- j.fs.Keys :: path <= r ==> r == path;
  }

  lemma {:induction false} PurgeDir(j: Job, n: Node, path: Path, level: nat, parent: Stat, s: Purging)
    requires n.Dir? && level > 0 && j.p < path && Mirrors(j.fs, n, path)
    requires NumberOf(s.number, ParentOf(path)) == Flag(j.fs, j.p, j.tombstone, ParentOf(path))
    requires forall q | path <= q :: Alike(j.fs, s.files, q)
    ensures NodePurged(j, n, path, s, Run(Step(j.tombstone), [Enter(n, path, level, parent)], s))
    decreases n, 0
  {
    var w := Enter(n, path, level, parent);
    RunDir(Step(j.tombstone), w, s);
    var s1 := StepPurge(j.tombstone, s, Report(w));
    EnterDir(j, n, path, level, parent, s);
    PurgeChildren(j, n.children, path, level, n.stat, s1);
    var s2 := Run(Step(j.tombstone), ChildWork(n.children, path, level, n.stat), s1);
    RemoveDir(j, n, path, level, parent, s1, s2);
    DirFails(j, n, path, s1, s2);
  }

  /** The walk enters a directory: its number is its mark. */
  lemma EnterDir(j: Job, n: Node, path: Path, level: nat, parent: Stat, s: Purging)
    requires n.Dir? && level > 0 && j.p < path && Mirrors(j.fs, n, path)
    requires NumberOf(s.number, ParentOf(path)) == Flag(j.fs, j.p, j.tombstone, ParentOf(path))
    ensures var s1 := StepPurge(j.tombstone, s, Report(Enter(n, path, level, parent)));
            && s1.files == s.files && s1.ok == s.ok
            && NumberOf(s1.number, path) == Flag(j.fs, j.p, j.tombstone, path)
            && NumbersKept(s.number, s1.number, |path|)
  {
  }

  /** A directory in it that stays keeps the directory itself. */
  lemma DirFails(j: Job, n: Node, path: Path, s: Purging, s': Purging)
    requires n.Dir? && ChildrenPurged(j, n.children, path, s, s')
    ensures s.ok && !s'.ok ==> Lives(j, path)
  {
    if s.ok && !s'.ok {
      var c :| c in n.children && c.Dir? && Lives(j, path + [c.name]);
      LivesUp(j, path, path + [c.name]);
    }
  }

  lemma {:induction false} PurgeChildren(j: Job, children: seq<Node>, path: Path, level: nat, parent: Stat, s: Purging)
    requires j.p <= path && DistinctAll(children)
    requires forall c <- children :: Mirrors(j.fs, c, path + [c.name])
    requires NumberOf(s.number, path) == Flag(j.fs, j.p, j.tombstone, path)
    requires forall q | Below(children, path, q) :: Alike(j.fs, s.files, q)
    ensures ChildrenPurged(j, children, path, s, Run(Step(j.tombstone), ChildWork(children, path, level, parent), s))
    decreases children
  {
    if children != [] {
      var c, rest := children[0], children[1..];
      var below := path + [c.name];
      assert ParentOf(below) == path;
      RunChildren(Step(j.tombstone), children, path, level, parent, s);
      FirstAlike(j, children, path, s.files);
      PurgeNode(j, c, below, level + 1, parent, s);
      var s1 := Run(Step(j.tombstone), [Enter(c, below, level + 1, parent)], s);
      RestAlike(j, children, path, s, s1);
      PurgeChildren(j, rest, path, level, parent, s1);
      var s2 := Run(Step(j.tombstone), ChildWork(rest, path, level, parent), s1);
      BothPurged(j, children, path, s, s1, s2);
    }
  }

  lemma FirstAlike(j: Job, children: seq<Node>, path: Path, files: Files)
    requires children != [] && forall q | Below(children, path, q) :: Alike(j.fs, files, q)
    ensures forall q | path + [children[0].name] <= q :: Alike(j.fs, files, q)
  {
    SplitBelow(children, path);
  }

  /** Purging the first child leaves the entries below the others alone. */
  lemma RestAlike(j: Job, children: seq<Node>, path: Path, s: Purging, s1: Purging)
    requires children != [] && DistinctAll(children)
    requires forall q | Below(children, path, q) :: Alike(j.fs, s.files, q)
    requires NodePurged(j, children[0], path + [children[0].name], s, s1)
    ensures forall q | Below(children[1..], path, q) :: Alike(j.fs, s1.files, q)
  {
    SplitBelow(children, path);
    RestIsApart(children, path);
    forall q | Below(children[1..], path, q) ensures Alike(j.fs, s1.files, q) {
      assert Alike(j.fs, s.files, q) && !(path + [children[0].name] <= q);
    }
  }

  lemma RestIsApart(children: seq<Node>, path: Path)
    requires children != [] && DistinctAll(children)
    ensures forall q | Below(children[1..], path, q) :: !(path + [children[0].name] <= q)
  {
    forall q | Below(children[1..], path, q) ensures !(path + [children[0].name] <= q) {
      SiblingsApart(children[0], children[1..], path, q);
    }
  }

  /** The first child and then the rest: all children. */
  lemma BothPurged(j: Job, children: seq<Node>, path: Path, s: Purging, s1: Purging, s2: Purging)
    requires children != [] && DistinctAll(children)
    requires NodePurged(j, children[0], path + [children[0].name], s, s1)
    requires ChildrenPurged(j, children[1..], path, s1, s2)
    ensures ChildrenPurged(j, children, path, s, s2)
  {
    SplitBelow(children, path);
    RestIsApart(children, path);
    DrainsTwice(s.files, s1.files, s2.files, InosAt(j, path + [children[0].name]), InosAmong(j, children[1..], path));
    assert InosAmong(j, children, path)
           == InosAt(j, path + [children[0].name]) + InosAmong(j, children[1..], path);
    assert forall d <- children :: d == children[0] || d in children[1..];
  }

  lemma DrainsTwice(a: Files, b: Files, c: Files, one: set<nat>, other: set<nat>)
    requires Drains(a, b, one) && Drains(b, c, other)
    ensures Drains(a, c, one + other)
  {
  }

  lemma SplitBelow(children: seq<Node>, path: Path)
    requires children != []
    ensures forall q :: Below(children, path, q) <==> (path + [children[0].name] <= q || Below(children[1..], path, q))
  {
    forall q ensures Below(children, path, q) <==> (path + [children[0].name] <= q || Below(children[1..], path, q)) {
      if Below(children, path, q) {
        var c :| c in children && path + [c.name] <= q;
        assert c == children[0] || c in children[1..];
      }
      if Below(children[1..], path, q) {
        var c :| c in children[1..] && path + [c.name] <= q;
        assert c in children;
      }
    }
  }

  /** When something in a directory survives, so does the directory. */
  lemma LivesUp(j: Job, path: Path, q: Path)
    requires path <= q && Lives(j, q)
    ensures Lives(j, path)
  {
    var r :| r in j.fs && q <= r && Spared(j.fs, j.p, j.tombstone, r);
    assert path <= r;
  }

  /** Nothing is left in a directory whose contents were purged exactly when nothing in it lives. */
  lemma HoldsLiving(j: Job, n: Node, path: Path, before: Purging, s: Purging)
    requires n.Dir? && j.p <= path && Mirrors(j.fs, n, path)
    requires forall q | path <= q :: Alike(j.fs, before.files, q)
    requires ChildrenPurged(j, n.children, path, before, s)
    ensures path in s.files && s.files[path].Folder?
    ensures forall q | path < q :: q in s.files <==> Lives(j, q)
    ensures Holds(s.files, path) <==> Lives(j, path)
  {
    assert !Below(n.children, path, path);
    assert Alike(j.fs, before.files, path);
    forall q | path < q ensures q in s.files <==> Lives(j, q) {
      if !Below(n.children, path, q) {
        assert q !in j.fs && Alike(j.fs, before.files, q);
        assert forall r <- j.fs.Keys :: q <= r ==> path < r;
        NothingBelow(j, n, path, q);
      }
    }
    if Holds(s.files, path) {
      var q :| q in s.files && path < q;
      LivesUp(j, path, q);
    }
    if Lives(j, path) {
      var r :| r in j.fs && path <= r && Spared(j.fs, j.p, j.tombstone, r);
      assert r != path && Lives(j, r);
    }
  }

  lemma NothingBelow(j: Job, n: Node, path: Path, q: Path)
    requires n.Dir? && Mirrors(j.fs, n, path) && path < q && !Below(n.children, path, q)
    ensures !Lives(j, q)
  {
  }

  /** The rmdir of a directory whose contents were purged. */
  lemma RemoveDir(j: Job, n: Node, path: Path, level: nat, parent: Stat, before: Purging, s: Purging)
    requires n.Dir? && j.p <= path && Mirrors(j.fs, n, path)
    requires forall q | path <= q :: Alike(j.fs, before.files, q)
    requires ChildrenPurged(j, n.children, path, before, s)
    ensures var s' := StepPurge(j.tombstone, s, Report(Leave(n, path, level, parent)));
            && (forall q | path <= q :: q in s'.files <==> Lives(j, q))
            && (forall q | !(path <= q) :: q in s'.files <==> q in before.files)
            && Drains(before.files, s'.files, InosAt(j, path))
            && s'.number == s.number && s'.ok == (s.ok && !Lives(j, path))
  {
    HoldsLiving(j, n, path, before, s);
    DirInos(j, n, path);
    OutsideIsApart(n.children, path);
    var left := Rmdir(s.files, path);
    RmdirLeaves(s.files, path, Lives(j, path));
    DrainsFewer(before.files, s.files, left, InosAt(j, path));
    forall q | path <= q ensures q in left <==> Lives(j, q) {
      assert q == path || path < q;
    }
  }

  lemma RmdirLeaves(files: Files, path: Path, held: bool)
    requires path in files && files[path].Folder? && (Holds(files, path) <==> held)
    ensures CanRmdir(files, path) <==> !held
    ensures Rmdir(files, path) == if held then files else files - {path}
  {
  }

  lemma OutsideIsApart(children: seq<Node>, path: Path)
    ensures forall q | !(path <= q) :: !Below(children, path, q)
  {
  }

  lemma DrainsFewer(before: Files, after: Files, fewer: Files, inos: set<nat>)
    requires Drains(before, after, inos)
    requires fewer.Keys <= after.Keys && forall q <- fewer.Keys :: fewer[q] == after[q]
    ensures Drains(before, fewer, inos)
  {
  }

  lemma DirInos(j: Job, n: Node, path: Path)
    requires n.Dir? && Mirrors(j.fs, n, path)
    ensures InosAt(j, path) == InosAmong(j, n.children, path)
  {
    forall r <- j.fs.Keys | Spared(j.fs, j.p, j.tombstone, r) ensures path <= r <==> Below(n.children, path, r) {
      assert r != path;
    }
  }

  /** The whole walk over a directory item. */
  lemma PurgeTree(j: Job, n: Node)
    requires n.Dir? && Mirrors(j.fs, n, j.p)
    ensures var s := Run<Purging>(Step(j.tombstone), [Enter(n, j.p, 0, n.stat)], Purging(j.fs, map[], true));
            && PurgeEffect(j.fs, s.files, j.p, true, j.tombstone)
            && (s.ok <==> PurgeWorks(j.fs, j.p, true, j.tombstone))
  {
    var w := Enter(n, j.p, 0, n.stat);
    var s: Purging := Purging(j.fs, map[], true);
    RunDir(Step(j.tombstone), w, s);
    var s1 := s.(number := map[j.p := j.tombstone]);
    assert StepPurge(j.tombstone, s, Report(w)) == s1;
    PurgeChildren(j, n.children, j.p, 0, n.stat, s1);
    var s2 := Run(Step(j.tombstone), ChildWork(n.children, j.p, 0, n.stat), s1);
    RemoveDir(j, n, j.p, 0, n.stat, s1, s2);
    DirFails(j, n, j.p, s1, s2);
    var s3 := StepPurge(j.tombstone, s2, Report(Leave(n, j.p, 0, n.stat)));
    TreeEffect(j, n, s3.files);
  }

  lemma TreeEffect(j: Job, n: Node, after: Files)
    requires Mirrors(j.fs, n, j.p)
    requires forall q | j.p <= q :: q in after <==> Lives(j, q)
    requires forall q | !(j.p <= q) :: q in after <==> q in j.fs
    requires Drains(j.fs, after, InosAt(j, j.p))
    ensures PurgeEffect(j.fs, after, j.p, true, j.tombstone)
  {
    assert InosAt(j, j.p) == SparedInos(j.fs, j.p, j.tombstone);
    forall q ensures q in after <==> q in j.fs && !Removed(j.fs, j.p, true, j.tombstone, q) {
      if Lives(j, q) && j.p <= q {
        LivingWasThere(j, n, j.p, q);
      }
    }
  }

  /** What lives was there. */
  lemma {:induction false} LivingWasThere(j: Job, n: Node, path: Path, q: Path)
    requires Mirrors(j.fs, n, path) && path <= q && Lives(j, q)
    ensures q in j.fs
    decreases n
  {
    if q != path {
      if n.Leaf? {
        LivingIsThere(j, n, path);
      } else {
        if !Below(n.children, path, q) {
          NothingBelow(j, n, path, q);
        }
        var c :| c in n.children && path + [c.name] <= q;
        LivingWasThere(j, c, path + [c.name], q);
      }
    }
  }

  // ----- What every purge keeps

  /** Nothing is new, and what is left is the same but for files that were emptied. */
  ghost predicate Dwindled(before: Files, after: Files) {
    forall q <- after.Keys :: q in before && Spent(after[q]) == Spent(before[q])
  }

  lemma PurgeDwindles(fs: Files, after: Files, p: Path, directory: bool, tombstone: bool)
    requires PurgeEffect(fs, after, p, directory, tombstone)
    ensures Dwindled(fs, after)
  {
  }

  /** With fewer entries a name can stop leading anywhere, but it never leads somewhere else. */
  lemma {:induction false} ResolveDwindled(fs: Files, now: Files, dir: Path, rest: Path, links: nat)
    requires Dwindled(fs, now) && Resolve(now, dir, rest, links).Some?
    ensures Resolve(fs, dir, rest, links) == Resolve(now, dir, rest, links)
    decreases links, |rest|, 0
  {
    if rest != [] {
      if rest[0] == "." {
        ResolveDwindled(fs, now, dir, rest[1..], links);
      } else if rest[0] == ".." {
        ResolveDwindled(fs, now, DirOf(dir), rest[1..], links);
      } else {
        ReachDwindled(fs, now, dir + [rest[0]], rest[1..], links);
      }
    }
  }

  lemma {:induction false} ReachDwindled(fs: Files, now: Files, p: Path, rest: Path, links: nat)
    requires Dwindled(fs, now) && Reach(now, p, rest, links).Some?
    ensures Reach(fs, p, rest, links) == Reach(now, p, rest, links)
    decreases links, |rest|, 1
  {
    assert Spent(now[p]) == Spent(fs[p]);
    if now[p].Folder? {
      ResolveDwindled(fs, now, p, rest, links);
    } else if now[p].kind == Symlink {
      ResolveDwindled(fs, now, if now[p].link.absolute then [] else DirOf(p), now[p].link.names + rest, links - 1);
    }
  }

  lemma TargetDwindled(fs: Files, now: Files, p: Path)
    requires Dwindled(fs, now) && TruncateTarget(now, p).Some?
    ensures TruncateTarget(fs, p) == TruncateTarget(now, p)
  {
    ReachDwindled(fs, now, p, [], MAX_LINKS);
  }
}
