/**
  What the loaded items say about the tree they were loaded from: every node
  below the root belongs to exactly one item, every item is as new as the newest
  node it stands for or contains, and the sizes add up to the measured tree.
*/
module CacheCoverage {
  import opened Fts
  import opened CacheItems

  // ----- The nodes of a tree, by path

  /** No two entries of one directory have the same name. */
  ghost predicate DistinctNames(n: Node) {
    n.Dir? ==> DistinctAll(n.children)
  }

  ghost predicate DistinctAll(children: seq<Node>) {
    children != [] ==>
      && DistinctNames(children[0])
      && DistinctAll(children[1..])
      && (forall c <- children[1..] :: c.name != children[0].name)
  }

  /** The path and modification time of every node. */
  ghost function Stamps(n: Node, path: Path): set<(Path, int)> {
    {(path, n.stat.mtime)} + (if n.Dir? then StampsAll(n.children, path) else {})
  }

  ghost function StampsAll(children: seq<Node>, path: Path): set<(Path, int)> {
    if children == [] then {}
    else Stamps(children[0], path + [children[0].name]) + StampsAll(children[1..], path)
  }

  ghost predicate Below(children: seq<Node>, path: Path, q: Path) {
    exists c <- children :: path + [c.name] <= q
  }

  lemma {:induction false} StampsAreBelow(n: Node, path: Path)
    ensures forall s <- Stamps(n, path) :: path <= s.0
  {
    if n.Dir? {
      StampsAllAreBelow(n.children, path);
    }
  }

  lemma {:induction false} StampsAllAreBelow(children: seq<Node>, path: Path)
    ensures forall s <- StampsAll(children, path) :: Below(children, path, s.0)
  {
    if children != [] {
      StampsAreBelow(children[0], path + [children[0].name]);
      StampsAllAreBelow(children[1..], path);
      forall s <- StampsAll(children, path) ensures Below(children, path, s.0) {
        if s in StampsAll(children[1..], path) {
          var c :| c in children[1..] && path + [c.name] <= s.0;
          assert c in children;
        }
      }
    }
  }

  lemma {:induction false} ItemsAreBelow(n: Node, path: Path, level: nat, tombstone: bool)
    ensures forall item <- Load(n, path, level, tombstone) ::
              path <= item.path && item.level == level + |item.path| - |path|
  {
    if n.Dir? && !n.xattrs.group {
      ItemsAllAreBelow(n.children, path, level, tombstone || n.xattrs.tombstone);
    }
  }

  lemma {:induction false} ItemsAllAreBelow(children: seq<Node>, path: Path, level: nat, tombstone: bool)
    ensures forall item <- LoadAll(children, path, level, tombstone) ::
              Below(children, path, item.path) && item.level == level + |item.path| - |path|
  {
    if children != [] {
      ItemsAreBelow(children[0], path + [children[0].name], level + 1, tombstone);
      ItemsAllAreBelow(children[1..], path, level, tombstone);
      forall item <- LoadAll(children[1..], path, level, tombstone) ensures Below(children, path, item.path) {
        var c :| c in children[1..] && path + [c.name] <= item.path;
        assert c in children;
      }
    }
  }

  // ----- Exactly one item per node

  /** A node belongs to its own item or to the group item of a directory above it. */
  predicate Owns(item: Item, q: Path) {
    item.path == q || (item.group && item.path < q)
  }

  function Owners(items: seq<Item>, q: Path): nat {
    if items == [] then 0 else (if Owns(items[0], q) then 1 else 0) + Owners(items[1..], q)
  }

  lemma {:induction false} OwnersSplit(a: seq<Item>, b: seq<Item>, q: Path)
    ensures Owners(a + b, q) == Owners(a, q) + Owners(b, q)
  {
    if a == [] {
      assert a + b == b;
    } else {
      OwnersSplit(a[1..], b, q);
      assert (a + b)[1..] == a[1..] + b;
    }
  }

  lemma {:induction false} NoOwners(items: seq<Item>, q: Path)
    requires forall item <- items :: !(item.path <= q)
    ensures Owners(items, q) == 0
  {
    if items != [] {
      NoOwners(items[1..], q);
    }
  }

  lemma SiblingsApart(first: Node, rest: seq<Node>, path: Path, q: Path)
    requires forall c <- rest :: c.name != first.name
    requires Below(rest, path, q)
    ensures !(path + [first.name] <= q)
  {
    var c :| c in rest && path + [c.name] <= q;
    assert q[|path|] == c.name;
  }

  lemma RestApart(first: Node, rest: seq<Node>, path: Path, p: Path, q: Path)
    requires forall c <- rest :: c.name != first.name
    requires Below(rest, path, p) && path + [first.name] <= q
    ensures !(p <= q)
  {
    var c :| c in rest && path + [c.name] <= p;
    assert p[|path|] == c.name && q[|path|] == first.name;
  }

  lemma {:induction false} OneOwner(n: Node, path: Path, level: nat, tombstone: bool, stamp: (Path, int))
    requires DistinctNames(n) && stamp in Stamps(n, path)
    ensures Owners(Load(n, path, level, tombstone), stamp.0) == 1
  {
    var q := stamp.0;
    StampsAreBelow(n, path);
    if n.Dir? && !n.xattrs.group {
      var mark := tombstone || n.xattrs.tombstone;
      var below := LoadAll(n.children, path, level, mark);
      OwnersSplit([Item(path, level, true, false, mark, SizeOf(n), MaxMtime(n))], below, q);
      if q == path {
        ItemsAllAreBelow(n.children, path, level, mark);
        NoOwners(below, q);
      } else {
        OneOwnerAll(n.children, path, level, mark, stamp);
      }
    }
  }

  lemma {:induction false} OneOwnerAll(children: seq<Node>, path: Path, level: nat, tombstone: bool, stamp: (Path, int))
    requires DistinctAll(children) && stamp in StampsAll(children, path)
    ensures Owners(LoadAll(children, path, level, tombstone), stamp.0) == 1
  {
    var q := stamp.0;
    var c, rest := children[0], children[1..];
    var first, others := Load(c, path + [c.name], level + 1, tombstone), LoadAll(rest, path, level, tombstone);
    OwnersSplit(first, others, q);
    ItemsAreBelow(c, path + [c.name], level + 1, tombstone);
    ItemsAllAreBelow(rest, path, level, tombstone);
    if stamp in Stamps(c, path + [c.name]) {
      StampsAreBelow(c, path + [c.name]);
      OneOwner(c, path + [c.name], level + 1, tombstone, stamp);
      forall item <- others ensures !(item.path <= q) {
        RestApart(c, rest, path, item.path, q);
      }
      NoOwners(others, q);
    } else {
      StampsAllAreBelow(rest, path);
      SiblingsApart(c, rest, path, q);
      NoOwners(first, q);
      OneOwnerAll(rest, path, level, tombstone, stamp);
    }
  }

  /** Every node below the root belongs to exactly one item of the tree. */
  lemma ExactCoverage(root: Node, path: Path)
    requires DistinctNames(root)
    ensures forall s <- Stamps(root, path) | s.0 != path :: Owners(LoadTree(root, path), s.0) == 1
    ensures Owners(LoadTree(root, path), path) == 0
  {
    forall s <- Stamps(root, path) | s.0 != path ensures Owners(LoadTree(root, path), s.0) == 1 {
      OneOwnerAll(root.children, path, 0, false, s);
    }
    if root.Dir? {
      ItemsAllAreBelow(root.children, path, 0, false);
      NoOwners(LoadTree(root, path), path);
    }
  }

  // ----- Every item is as new as the newest node at or below it

  ghost predicate AsNewAs(item: Item, stamps: set<(Path, int)>) {
    && (forall s <- stamps | item.path <= s.0 :: s.1 <= item.modified)
    && (exists s <- stamps :: item.path <= s.0 && s.1 == item.modified)
  }

  lemma {:induction false} MaxMtimeIsNewest(n: Node, path: Path)
    ensures forall s <- Stamps(n, path) :: s.1 <= MaxMtime(n)
    ensures exists s <- Stamps(n, path) :: s.1 == MaxMtime(n)
    decreases n
  {
    assert (path, n.stat.mtime) in Stamps(n, path);
    if n.Dir? {
      NewestIsNewest(n.stat.mtime, n.children, path);
    }
  }

  lemma {:induction false} NewestIsNewest(m: int, children: seq<Node>, path: Path)
    ensures forall s <- StampsAll(children, path) :: s.1 <= Newest(m, children)
    ensures Newest(m, children) == m || exists s <- StampsAll(children, path) :: s.1 == Newest(m, children)
    decreases children
  {
    if children != [] {
      MaxMtimeIsNewest(children[0], path + [children[0].name]);
      NewestIsNewest(Max(m, MaxMtime(children[0])), children[1..], path);
      if Newest(m, children) == MaxMtime(children[0]) {
        var s :| s in Stamps(children[0], path + [children[0].name]) && s.1 == MaxMtime(children[0]);
        assert s in StampsAll(children, path);
      } else if Newest(m, children) != m {
        var s :| s in StampsAll(children[1..], path) && s.1 == Newest(m, children);
        assert s in StampsAll(children, path);
      }
    }
  }

  lemma {:induction false} ItemsAsNew(n: Node, path: Path, level: nat, tombstone: bool)
    requires DistinctNames(n)
    ensures forall item <- Load(n, path, level, tombstone) :: AsNewAs(item, Stamps(n, path))
    decreases n
  {
    StampsAreBelow(n, path);
    MaxMtimeIsNewest(n, path);
    if n.Dir? && !n.xattrs.group {
      var mark := tombstone || n.xattrs.tombstone;
      ItemsAllAsNew(n.children, path, level, mark);
      ItemsAllAreBelow(n.children, path, level, mark);
      forall item <- LoadAll(n.children, path, level, mark) ensures AsNewAs(item, Stamps(n, path)) {
        var s :| s in StampsAll(n.children, path) && item.path <= s.0 && s.1 == item.modified;
        assert s in Stamps(n, path);
      }
    }
  }

  lemma {:induction false} ItemsAllAsNew(children: seq<Node>, path: Path, level: nat, tombstone: bool)
    requires DistinctAll(children)
    ensures forall item <- LoadAll(children, path, level, tombstone) :: AsNewAs(item, StampsAll(children, path))
    decreases children
  {
    if children != [] {
      var c, rest := children[0], children[1..];
      var first, others := Stamps(c, path + [c.name]), StampsAll(rest, path);
      ItemsAsNew(c, path + [c.name], level + 1, tombstone);
      ItemsAllAsNew(rest, path, level, tombstone);
      StampsAreBelow(c, path + [c.name]);
      StampsAllAreBelow(rest, path);
      ItemsAreBelow(c, path + [c.name], level + 1, tombstone);
      ItemsAllAreBelow(rest, path, level, tombstone);
      forall item <- Load(c, path + [c.name], level + 1, tombstone) ensures AsNewAs(item, first + others) {
        forall s <- others ensures !(item.path <= s.0) {
          SiblingsApart(c, rest, path, s.0);
        }
        var s :| s in first && item.path <= s.0 && s.1 == item.modified;
        assert s in first + others;
      }
      forall item <- LoadAll(rest, path, level, tombstone) ensures AsNewAs(item, first + others) {
        forall s <- first ensures !(item.path <= s.0) {
          RestApart(c, rest, path, item.path, s.0);
        }
        var s :| s in others && item.path <= s.0 && s.1 == item.modified;
        assert s in first + others;
      }
    }
  }

  /** The modification time of every item is the newest at or below its path. */
  lemma ModifiedIsNewest(root: Node, path: Path)
    requires DistinctNames(root)
    ensures forall item <- LoadTree(root, path) :: AsNewAs(item, Stamps(root, path))
  {
    if root.Dir? {
      ItemsAllAsNew(root.children, path, 0, false);
      ItemsAllAreBelow(root.children, path, 0, false);
      forall item <- LoadTree(root, path) ensures AsNewAs(item, Stamps(root, path)) {
        var s :| s in StampsAll(root.children, path) && item.path <= s.0 && s.1 == item.modified;
        assert s in Stamps(root, path);
      }
    }
  }

  // ----- The sizes add up

  function TotalSize(items: seq<Item>): int {
    if items == [] then 0 else items[0].size + TotalSize(items[1..])
  }

  lemma {:induction false} TotalSizeSplit(a: seq<Item>, b: seq<Item>)
    ensures TotalSize(a + b) == TotalSize(a) + TotalSize(b)
  {
    if a == [] {
      assert a + b == b;
    } else {
      TotalSizeSplit(a[1..], b);
      assert (a + b)[1..] == a[1..] + b;
    }
  }

  lemma {:induction false} LoadSize(n: Node, path: Path, level: nat, tombstone: bool)
    ensures TotalSize(Load(n, path, level, tombstone)) == UsedBy(n)
  {
    if n.Dir? && !n.xattrs.group {
      var mark := tombstone || n.xattrs.tombstone;
      var own := [Item(path, level, true, false, mark, SizeOf(n), MaxMtime(n))];
      LoadAllSize(n.children, path, level, mark);
      TotalSizeSplit(own, LoadAll(n.children, path, level, mark));
    }
  }

  lemma {:induction false} LoadAllSize(children: seq<Node>, path: Path, level: nat, tombstone: bool)
    ensures TotalSize(LoadAll(children, path, level, tombstone)) == UsedByAll(children)
  {
    if children != [] {
      var c := children[0];
      LoadSize(c, path + [c.name], level + 1, tombstone);
      LoadAllSize(children[1..], path, level, tombstone);
      TotalSizeSplit(Load(c, path + [c.name], level + 1, tombstone), LoadAll(children[1..], path, level, tombstone));
    }
  }

  /** All items together are as large as `calculate_tree_size` says, less the root's own blocks. */
  lemma SizesAddUp(root: Node, path: Path)
    ensures TotalSize(LoadTree(root, path)) == UsedBy(root) - SizeOf(root)
  {
    if root.Dir? {
      LoadAllSize(root.children, path, 0, false);
    }
  }

  lemma {:induction false} ItemIsNatural(n: Node, path: Path, level: nat, tombstone: bool)
    ensures forall item <- Load(n, path, level, tombstone) :: item.size >= 0
    decreases n
  {
    if n.Dir? && !n.xattrs.group {
      ItemsAreNatural(n.children, path, level, tombstone || n.xattrs.tombstone);
    }
  }

  lemma {:induction false} ItemsAreNatural(children: seq<Node>, path: Path, level: nat, tombstone: bool)
    ensures forall item <- LoadAll(children, path, level, tombstone) :: item.size >= 0
    decreases children
  {
    if children != [] {
      ItemIsNatural(children[0], path + [children[0].name], level + 1, tombstone);
      ItemsAreNatural(children[1..], path, level, tombstone);
    }
  }

  /** No item has a negative size. */
  lemma TreeIsNatural(root: Node, path: Path)
    ensures forall item <- LoadTree(root, path) :: item.size >= 0
  {
    if root.Dir? {
      ItemsAreNatural(root.children, path, 0, false);
    }
  }
}
