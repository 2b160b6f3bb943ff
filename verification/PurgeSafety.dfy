/**
  Loading, sorting and purging together: the items loaded from a tree carry the
  marks the purge needs, popping them from the back of the sorted list never
  removes a directory before what is in it, and every system call succeeds
  except the rmdir of a directory that keeps a tombstoned file and the truncation
  of a tombstoned link or special file that does not lead to a regular one.
*/
module PurgeSafety {
  import opened Fts
  import opened CacheItems
  import opened CacheCoverage
  import opened PurgeOrder
  import opened Purge
  import opened GroupPurge

  // ----- The tree, the file system and the items agree

  lemma {:induction false} MirroredIsClosed(fs: Files, n: Node, path: Path)
    requires Mirrors(fs, n, path)
    ensures Closed(fs, path)
  {
    forall q <- fs.Keys | path < q ensures ParentOf(q) in fs && fs[ParentOf(q)].Folder? {
      var c :| c in n.children && path + [c.name] <= q;
      var below := path + [c.name];
      MirroredIsClosed(fs, c, below);
      if q == below {
        assert ParentOf(q) == path;
      }
    }
  }

  lemma {:induction false} StampIsFile(fs: Files, n: Node, path: Path)
    requires Mirrors(fs, n, path)
    ensures forall s <- Stamps(n, path) :: s.0 in fs
  {
    if n.Dir? {
      StampsAreFiles(fs, n.children, path);
    }
  }

  lemma {:induction false} StampsAreFiles(fs: Files, children: seq<Node>, path: Path)
    requires forall c <- children :: Mirrors(fs, c, path + [c.name])
    ensures forall s <- StampsAll(children, path) :: s.0 in fs
  {
    if children != [] {
      StampIsFile(fs, children[0], path + [children[0].name]);
      StampsAreFiles(fs, children[1..], path);
    }
  }

  lemma {:induction false} FileHasStamp(fs: Files, n: Node, path: Path, q: Path) returns (s: (Path, int))
    requires Mirrors(fs, n, path) && path <= q && q in fs
    ensures s in Stamps(n, path) && s.0 == q
  {
    if q == path {
      s := (path, n.stat.mtime);
    } else {
      var c :| c in n.children && path + [c.name] <= q;
      s := FileHasStamp(fs, c, path + [c.name], q);
      StampOfChild(n.children, path, c, s);
    }
  }

  lemma {:induction false} StampOfChild(children: seq<Node>, path: Path, c: Node, s: (Path, int))
    requires c in children && s in Stamps(c, path + [c.name])
    ensures s in StampsAll(children, path)
  {
    if c != children[0] {
      StampOfChild(children[1..], path, c, s);
    }
  }

  ghost predicate Marked(fs: Files, root: Path, item: Item) {
    && root < item.path && item.path in fs
    && item.directory == fs[item.path].Folder?
    && item.tombstone == Mark(fs, root, item.path)
  }

  lemma {:induction false} ItemIsMarked(fs: Files, root: Path, n: Node, path: Path, level: nat, tombstone: bool)
    requires root < path && Mirrors(fs, n, path)
    requires tombstone == Tombstoned(fs, root, ParentOf(path))
    ensures forall item <- Load(n, path, level, tombstone) :: Marked(fs, root, item)
    decreases n
  {
    if n.Dir? {
      assert (tombstone || n.xattrs.tombstone) == Tombstoned(fs, root, path);
      if !n.xattrs.group {
        ItemsAreMarked(fs, root, n.children, path, level, tombstone || n.xattrs.tombstone);
      }
    }
  }

  lemma {:induction false} ItemsAreMarked(fs: Files, root: Path, children: seq<Node>, path: Path, level: nat,
                                          tombstone: bool)
    requires root <= path && forall c <- children :: Mirrors(fs, c, path + [c.name])
    requires tombstone == Tombstoned(fs, root, path)
    ensures forall item <- LoadAll(children, path, level, tombstone) :: Marked(fs, root, item)
    decreases children
  {
    if children != [] {
      var below := path + [children[0].name];
      assert ParentOf(below) == path;
      ItemIsMarked(fs, root, children[0], below, level + 1, tombstone);
      ItemsAreMarked(fs, root, children[1..], path, level, tombstone);
    }
  }

  /** The items of a tree have the kind and the mark of the nodes they are for. */
  lemma TreeIsMarked(fs: Files, root: Node, path: Path)
    requires Mirrors(fs, root, path)
    ensures forall item <- LoadTree(root, path) :: Marked(fs, path, item)
  {
    if root.Dir? {
      ItemsAreMarked(fs, path, root.children, path, 0, false);
    }
  }

  // ----- Who owns a node

  lemma {:induction false} OwnerOf(items: seq<Item>, q: Path) returns (i: nat)
    requires Owners(items, q) > 0
    ensures i < |items| && Owns(items[i], q)
  {
    if Owns(items[0], q) {
      i := 0;
    } else {
      i := OwnerOf(items[1..], q);
      i := i + 1;
    }
  }

  lemma {:induction false} CountsOwner(items: seq<Item>, i: nat, q: Path)
    requires i < |items| && Owns(items[i], q)
    ensures Owners(items, q) >= 1
  {
    if i > 0 {
      CountsOwner(items[1..], i - 1, q);
    }
  }

  lemma {:induction false} TwoOwners(items: seq<Item>, i: nat, k: nat, q: Path)
    requires i < k < |items| && Owns(items[i], q) && Owns(items[k], q)
    ensures Owners(items, q) >= 2
  {
    if i == 0 {
      CountsOwner(items[1..], k - 1, q);
    } else {
      TwoOwners(items[1..], i - 1, k - 1, q);
    }
  }

  lemma OnlyOwner(items: seq<Item>, a: Item, b: Item, q: Path)
    requires a in items && b in items && Owns(a, q) && Owns(b, q) && Owners(items, q) == 1
    ensures a == b
  {
    var i :| 0 <= i < |items| && items[i] == a;
    var k :| 0 <= k < |items| && items[k] == b;
    if i < k {
      TwoOwners(items, i, k, q);
    } else if k < i {
      TwoOwners(items, k, i, q);
    }
  }

  // ----- Popping the sorted items from the back

  ghost function Popped(sorted: seq<Item>): seq<Path> {
    seq(|sorted|, i requires 0 <= i < |sorted| => sorted[|sorted| - 1 - i].path)
  }

  /** A file system, the tree in it at `path`, its sorted items and a run that pops them all. */
  ghost predicate PopRun(fs: Files, root: Node, path: Path, sorted: seq<Item>, states: seq<Files>) {
    && Mirrors(fs, root, path) && DistinctNames(root)
    && Arranges(LoadTree(root, path), sorted)
    && PurgeRun(fs, path, Popped(sorted), states)
  }

  lemma InTree(root: Node, path: Path, sorted: seq<Item>)
    requires DistinctNames(root) && Arranges(LoadTree(root, path), sorted)
    ensures ParentsFirst(sorted)
    ensures forall item :: item in sorted <==> item in LoadTree(root, path)
  {
    var places := [(root, path)];
    assert LoadPlaces(places) == LoadTree(root, path);
    ParentsSortFirst(places, sorted);
    forall item ensures item in sorted <==> item in LoadTree(root, path) {
      assert item in sorted <==> item in multiset(sorted);
    }
  }

  /** No item inside a group directory: its node has an owner already. */
  lemma NothingInGroup(fs: Files, root: Node, path: Path, group: Item, item: Item)
    requires Mirrors(fs, root, path) && DistinctNames(root)
    requires group in LoadTree(root, path) && item in LoadTree(root, path)
    requires group.group && group.path <= item.path
    ensures group == item
  {
    TreeIsMarked(fs, root, path);
    var s := FileHasStamp(fs, root, path, item.path);
    ExactCoverage(root, path);
    OnlyOwner(LoadTree(root, path), group, item, item.path);
  }

  lemma CoverByPopped(fs: Files, sorted: seq<Item>, done: nat, k: nat, q: Path)
    requires done <= |sorted| && |sorted| - done <= k < |sorted|
    requires sorted[k].path <= q && q in fs
    ensures q in Covered(fs, Popped(sorted)[..done])
  {
    var p := Popped(sorted)[..done][|sorted| - 1 - k];
    assert p in Popped(sorted)[..done] && p <= q;
  }

  lemma CoveringItem(fs: Files, sorted: seq<Item>, done: nat, q: Path) returns (k: nat)
    requires done <= |sorted| && q in Covered(fs, Popped(sorted)[..done])
    ensures |sorted| - done <= k < |sorted| && sorted[k].path <= q
  {
    var p :| p in Popped(sorted)[..done] && p <= q;
    var i :| 0 <= i < done && Popped(sorted)[i] == p;
    k := |sorted| - 1 - i;
  }

  /** What is in a directory that is not a group has its item further back in the list. */
  lemma OwnerIsBehind(fs: Files, root: Node, path: Path, sorted: seq<Item>, left: nat, q: Path) returns (k: nat)
    requires Mirrors(fs, root, path) && DistinctNames(root) && Arranges(LoadTree(root, path), sorted)
    requires left < |sorted| && !sorted[left].group && sorted[left].path < q && q in fs
    ensures left < k < |sorted| && sorted[k].path <= q
  {
    var items, item := LoadTree(root, path), sorted[left];
    InTree(root, path, sorted);
    TreeIsMarked(fs, root, path);
    assert item in items;
    var s := FileHasStamp(fs, root, path, q);
    ExactCoverage(root, path);
    var i := OwnerOf(items, q);
    var owner := items[i];
    if owner.group && owner.path <= item.path {
      NothingInGroup(fs, root, path, owner, item);
    }
    assert item.path < owner.path;
    assert owner in sorted;
    k :| 0 <= k < |sorted| && sorted[k] == owner;
  }

  /** Everything in a directory that is not a group was covered before the directory's turn. */
  lemma ContentsCovered(fs: Files, root: Node, path: Path, sorted: seq<Item>, states: seq<Files>, left: nat, q: Path)
    requires PopRun(fs, root, path, sorted, states) && left < |sorted|
    requires !sorted[left].group && sorted[left].path < q && q in fs
    ensures q in Covered(fs, Popped(sorted)[..|sorted| - left - 1])
  {
    var k := OwnerIsBehind(fs, root, path, sorted, left, q);
    CoverByPopped(fs, sorted, |sorted| - left - 1, k, q);
  }

  /** An item's own path is not covered before its turn, so it is still there. */
  lemma StillThere(fs: Files, root: Node, path: Path, sorted: seq<Item>, states: seq<Files>, left: nat)
    requires PopRun(fs, root, path, sorted, states) && left < |sorted|
    ensures sorted[left].path !in Covered(fs, Popped(sorted)[..|sorted| - left - 1])
  {
    var p := sorted[left].path;
    InTree(root, path, sorted);
    if p in Covered(fs, Popped(sorted)[..|sorted| - left - 1]) {
      var k := CoveringItem(fs, sorted, |sorted| - left - 1, p);
      assert sorted[k].path < p ==> k < left;
      DistinctPaths(fs, root, path, sorted, left, k);
      assert false;
    }
  }

  lemma DistinctPaths(fs: Files, root: Node, path: Path, sorted: seq<Item>, i: nat, k: nat)
    requires Mirrors(fs, root, path) && DistinctNames(root) && Arranges(LoadTree(root, path), sorted)
    requires i < k < |sorted|
    ensures sorted[i].path != sorted[k].path
  {
    var items, p := LoadTree(root, path), sorted[i].path;
    InTree(root, path, sorted);
    TreeIsMarked(fs, root, path);
    assert sorted[i] in items;
    var s := FileHasStamp(fs, root, path, p);
    ExactCoverage(root, path);
    OwnersPermute(items, sorted, p);
    if sorted[k].path == p {
      TwoOwners(sorted, i, k, p);
    }
  }

  lemma {:induction false} OwnersPermute(a: seq<Item>, b: seq<Item>, q: Path)
    requires multiset(a) == multiset(b)
    ensures Owners(a, q) == Owners(b, q)
  {
    if a == [] {
      assert |multiset(b)| == 0;
    } else {
      assert a[0] in multiset(b);
      var i :| 0 <= i < |b| && b[i] == a[0];
      var rest := b[..i] + b[i + 1..];
      assert a == [a[0]] + a[1..];
      assert b == b[..i] + ([b[i]] + b[i + 1..]);
      assert multiset(a[1..]) == multiset(a) - multiset{a[0]};
      assert multiset(rest) == multiset(b) - multiset{b[i]};
      OwnersPermute(a[1..], rest, q);
      OwnersSplit(b[..i], b[i + 1..], q);
      OwnersSplit(b[..i], [b[i]] + b[i + 1..], q);
    }
  }

  /** An item whose turn has come: its node is there, as it was but for its contents. */
  lemma ItemIsThere(fs: Files, root: Node, path: Path, sorted: seq<Item>, states: seq<Files>, left: nat)
    requires PopRun(fs, root, path, sorted, states) && left < |sorted|
    ensures var item, now := sorted[left], states[|sorted| - left - 1];
            Marked(fs, path, item) && item.path in now && Spent(now[item.path]) == Spent(fs[item.path])
  {
    MirroredIsClosed(fs, root, path);
    InTree(root, path, sorted);
    TreeIsMarked(fs, root, path);
    assert sorted[left] in LoadTree(root, path);
    AfterPurges(fs, path, Popped(sorted), states, |sorted| - left - 1);
    StillThere(fs, root, path, sorted, states, left);
  }

  lemma DirectoryWorks(fs: Files, root: Path, paths: seq<Path>, states: seq<Files>, i: nat, p: Path)
    requires Closed(fs, root) && PurgeRun(fs, root, paths, states) && i <= |paths|
    requires root < p && p in fs && p in states[i] && fs[p].Folder?
    ensures PurgeWorks(states[i], p, true, Mark(fs, root, p)) <==> !Kept(fs, root, p)
  {
    AfterPurges(fs, root, paths, states, i);
    SurvivesAlike(fs, root, Covered(fs, paths[..i]), EmptiedBy(fs, root, paths, states, i), states[i], p, p);
  }

  /**
    Every purge of the run, in the order of the loop: a regular file is still
    there and goes (or is truncated) without an error, and so does any other
    file that is not tombstoned; a directory goes without
    an error exactly when it contains no tombstoned file to keep.
  */
  lemma PopsWork(fs: Files, root: Node, path: Path, sorted: seq<Item>, states: seq<Files>, left: nat)
    requires PopRun(fs, root, path, sorted, states) && left < |sorted|
    ensures var item, now := sorted[left], states[|sorted| - left - 1];
            && item.path in now && item.path in fs
            && (item.directory ==>
                  (PurgeWorks(now, item.path, true, item.tombstone) <==> !Kept(fs, path, item.path)))
            && (!item.directory && (!item.tombstone || IsFile(fs, item.path)) ==>
                  PurgeWorks(now, item.path, false, item.tombstone))
  {
    var item, done := sorted[left], |sorted| - left - 1;
    ItemIsThere(fs, root, path, sorted, states, left);
    if item.directory {
      MirroredIsClosed(fs, root, path);
      DirectoryWorks(fs, path, Popped(sorted), states, done, item.path);
    }
  }

  /** No directory below the root is tombstoned. */
  ghost predicate NoTombstones(fs: Files, root: Path) {
    forall d <- fs.Keys | root < d && fs[d].Folder? :: !fs[d].tombstone
  }

  lemma {:induction false} NeverTombstoned(fs: Files, root: Path, d: Path)
    requires NoTombstones(fs, root) && root <= d
    ensures !Tombstoned(fs, root, d)
    decreases |d|
  {
    if d != root {
      NeverTombstoned(fs, root, ParentOf(d));
    }
  }

  lemma NeverKept(fs: Files, root: Path, q: Path)
    requires NoTombstones(fs, root)
    ensures !Kept(fs, root, q)
  {
    if Kept(fs, root, q) {
      var r :| r in fs && q <= r && Spared(fs, root, false, r);
      NeverTombstoned(fs, root, ParentOf(r));
    }
  }

  /** Without tombstones no directory still holds anything when its own rmdir runs. */
  lemma EmptyAtRmdir(fs: Files, root: Node, path: Path, sorted: seq<Item>, states: seq<Files>, left: nat)
    requires PopRun(fs, root, path, sorted, states) && NoTombstones(fs, path)
    requires left < |sorted| && !sorted[left].group
    ensures !Holds(states[|sorted| - left - 1], sorted[left].path)
  {
    InTree(root, path, sorted);
    TreeIsMarked(fs, root, path);
    assert sorted[left] in LoadTree(root, path);
    var p, now := sorted[left].path, states[|sorted| - left - 1];
    forall q | p < q ensures q !in now {
      GoneBelow(fs, root, path, sorted, states, left, q);
    }
  }

  /** Without tombstones no purge of the run fails, and nothing is left below the root. */
  lemma PopsEmptyTheTree(fs: Files, root: Node, path: Path, sorted: seq<Item>, states: seq<Files>)
    requires PopRun(fs, root, path, sorted, states) && NoTombstones(fs, path)
    ensures forall left | 0 <= left < |sorted| ::
              PurgeWorks(states[|sorted| - left - 1], sorted[left].path, sorted[left].directory, sorted[left].tombstone)
    ensures forall q | path < q :: q !in states[|sorted|]
  {
    InTree(root, path, sorted);
    TreeIsMarked(fs, root, path);
    forall left | 0 <= left < |sorted|
      ensures PurgeWorks(states[|sorted| - left - 1], sorted[left].path, sorted[left].directory, sorted[left].tombstone)
    {
      var item := sorted[left];
      assert item in LoadTree(root, path);
      PopsWork(fs, root, path, sorted, states, left);
      NeverKept(fs, path, item.path);
      NeverTombstoned(fs, path, if item.directory then item.path else ParentOf(item.path));
    }
    forall q | path < q ensures q !in states[|sorted|] {
      GoneAtEnd(fs, root, path, sorted, states, q);
    }
  }

  /** At the turn of a directory that is no group, what was below it is gone. */
  lemma GoneBelow(fs: Files, root: Node, path: Path, sorted: seq<Item>, states: seq<Files>, left: nat, q: Path)
    requires PopRun(fs, root, path, sorted, states) && NoTombstones(fs, path)
    requires left < |sorted| && !sorted[left].group && path < sorted[left].path < q
    ensures q !in states[|sorted| - left - 1]
  {
    MirroredIsClosed(fs, root, path);
    if q in fs {
      ContentsCovered(fs, root, path, sorted, states, left, q);
    }
    GoneByPurges(fs, path, Popped(sorted), states, |sorted| - left - 1, q);
  }

  /** At the end, everything is. */
  lemma GoneAtEnd(fs: Files, root: Node, path: Path, sorted: seq<Item>, states: seq<Files>, q: Path)
    requires PopRun(fs, root, path, sorted, states) && NoTombstones(fs, path) && path < q
    ensures q !in states[|sorted|]
  {
    MirroredIsClosed(fs, root, path);
    if q in fs {
      AllCovered(fs, root, path, sorted, states, q);
    }
    GoneByPurges(fs, path, Popped(sorted), states, |sorted|, q);
  }

  lemma GoneByPurges(fs: Files, root: Path, paths: seq<Path>, states: seq<Files>, i: nat, q: Path)
    requires Closed(fs, root) && PurgeRun(fs, root, paths, states) && i <= |paths| && NoTombstones(fs, root)
    requires root < q && (q in fs ==> q in Covered(fs, paths[..i]))
    ensures q !in states[i]
  {
    AfterPurges(fs, root, paths, states, i);
    CoveredIsGone(fs, root, Covered(fs, paths[..i]), EmptiedBy(fs, root, paths, states, i), states[i], q);
  }

  lemma CoveredIsGone(fs: Files, root: Path, covered: set<Path>, emptied: set<nat>, now: Files, q: Path)
    requires Remains(fs, root, covered, emptied, now) && NoTombstones(fs, root)
    requires root < q && (q in fs ==> q in covered) && covered <= fs.Keys
    ensures q !in now
  {
    if q in fs {
      NeverKept(fs, root, q);
      NeverTombstoned(fs, root, ParentOf(q));
      assert !Stays(fs, root, covered, q);
    } else {
      assert q !in covered;
    }
  }

  lemma AllCovered(fs: Files, root: Node, path: Path, sorted: seq<Item>, states: seq<Files>, q: Path)
    requires PopRun(fs, root, path, sorted, states)
    requires path < q && q in fs
    ensures q in Covered(fs, Popped(sorted)[..|sorted|])
  {
    var items := LoadTree(root, path);
    InTree(root, path, sorted);
    var s := FileHasStamp(fs, root, path, q);
    ExactCoverage(root, path);
    var i := OwnerOf(items, q);
    assert items[i] in sorted;
    var k :| 0 <= k < |sorted| && sorted[k] == items[i];
    CoverByPopped(fs, sorted, |sorted|, k, q);
  }
}
