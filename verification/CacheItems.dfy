/**
  What `CacheTracker::loadItemsFrom` makes of a cache tree: one cache item per
  node below the root, except that a "group" directory swallows everything
  under it, and with modification times raised from children to parents.

  `Step` is the body of the loading loop; `Load` is the same list by recursion
  on the tree.
*/
module CacheItems {
  import opened Wrappers
  import opened Fts
  import TreeSize

  /** The contents of a CacheItem. The path is the one `buildPath` rebuilds. */
  datatype Item = Item(path: Path, level: nat, directory: bool, group: bool, tombstone: bool, size: int, modified: int)

  function Max(a: int, b: int): (m: int)
    ensures m >= a && m >= b && (m == a || m == b)
  {
    if a < b then b else a
  }

  function ParentOf(path: Path): Path
    requires path != []
  {
    path[..|path| - 1]
  }

  // ----- The loading loop on values

  /** Items so far, each entry's fts_pointer as an item index, and the group being collected. */
  datatype LoadState = LoadState(items: seq<Item>, pointer: map<Path, nat>, group: Option<nat>)

  ghost predicate InRange(s: LoadState) {
    && (forall q :: q in s.pointer ==> s.pointer[q] < |s.items|)
    && (s.group.Some? ==> s.group.value < |s.items|)
  }

  type Loading = s: LoadState | InRange(s) ghost witness LoadState([], map[], None)

  function Lookup(pointer: map<Path, nat>, path: Path): (k: Option<nat>)
  {
    if path in pointer then Some(pointer[path]) else None
  }

  /** The item of the directory an entry is in; None directly below the root. */
  function Upper(s: Loading, path: Path): (k: Option<nat>)
    ensures k.Some? ==> k.value < |s.items|
  {
    if path == [] then None else Lookup(s.pointer, ParentOf(path))
  }

  /** The CacheItem constructor, then the group and tombstone marks of a directory. */
  function NewItem(s: Loading, p: Entry): (item: Item) {
    var up := Upper(s, p.path);
    var dir := p.node.Dir?;
    Item(p.path, p.level, dir,
         (up.Some? && s.items[up.value].group) || (dir && p.node.xattrs.group),
         (up.Some? && s.items[up.value].tombstone) || (dir && p.node.xattrs.tombstone),
         SizeOf(p.node), p.node.stat.mtime)
  }

  /** Raise the modification time of an item, if there is one. */
  function Raise(items: seq<Item>, k: Option<nat>, modified: int): (r: seq<Item>)
    requires k.Some? ==> k.value < |items|
    ensures |r| == |items|
  {
    if k.None? then items
    else items[k.value := items[k.value].(modified := Max(items[k.value].modified, modified))]
  }

  /** Raise the modification time of an item to the newest of the children. */
  function RaiseAll(items: seq<Item>, k: Option<nat>, children: seq<Node>): (r: seq<Item>)
    requires k.Some? ==> k.value < |items|
    ensures |r| == |items|
  {
    if k.None? then items
    else items[k.value := items[k.value].(modified := Newest(items[k.value].modified, children))]
  }

  function BubbleUp(s: Loading, path: Path): (r: Loading) {
    if path in s.pointer then
      s.(items := Raise(s.items, Upper(s, path), s.items[s.pointer[path]].modified))
    else s
  }

  function Absorb(item: Item, n: Node): Item {
    item.(size := item.size + SizeOf(n), modified := Max(item.modified, n.stat.mtime))
  }

  function StepItem(s: Loading, p: Entry): (r: Loading) {
    if s.group.Some? then
      var k := s.group.value;
      if p.info == FTS_DP then
        if p.level == s.items[k].level then BubbleUp(s.(group := None), p.path) else s
      else s.(items := s.items[k := Absorb(s.items[k], p.node)])
    else if p.level == 0 then s
    else if p.info == FTS_DP then BubbleUp(s, p.path)
    else
      var k := |s.items|;
      var item := NewItem(s, p);
      var added := LoadState(s.items + [item], s.pointer[p.path := k], None);
      if p.info != FTS_D then BubbleUp(added, p.path)
      else if item.group then added.(group := Some(k))
      else added
  }

  function Step(): (Loading, Entry) -> (Loading, bool) {
    (s: Loading, p: Entry) => (StepItem(s, p), false)
  }

  // ----- The items of a tree, by recursion on the tree

  /** The newest of `modified` and everything in the children. */
  function Newest(modified: int, children: seq<Node>): (m: int)
    ensures modified <= m
    decreases children
  {
    if children == [] then modified else Newest(Max(modified, MaxMtime(children[0])), children[1..])
  }

  /** The newest modification time in a tree. */
  function MaxMtime(n: Node): (m: int)
    ensures n.stat.mtime <= m
    decreases n
  {
    if n.Leaf? then n.stat.mtime else Newest(n.stat.mtime, n.children)
  }

  function UsedBy(n: Node): nat {
    TreeSize.Size(TreeSize.EVERYTHING, TreeSize.NoOwner(), n)
  }

  function UsedByAll(children: seq<Node>): nat {
    TreeSize.SizeAll(TreeSize.EVERYTHING, TreeSize.NoOwner(), children)
  }

  function Load(n: Node, path: Path, level: nat, tombstone: bool): (items: seq<Item>)
    decreases n
  {
    if n.Leaf? then
      [Item(path, level, false, false, tombstone, SizeOf(n), n.stat.mtime)]
    else
      var mark := tombstone || n.xattrs.tombstone;
      if n.xattrs.group then [Item(path, level, true, true, mark, UsedBy(n), MaxMtime(n))]
      else [Item(path, level, true, false, mark, SizeOf(n), MaxMtime(n))] + LoadAll(n.children, path, level, mark)
  }

  function LoadAll(children: seq<Node>, path: Path, level: nat, tombstone: bool): (items: seq<Item>)
    decreases children
  {
    if children == [] then []
    else Load(children[0], path + [children[0].name], level + 1, tombstone)
         + LoadAll(children[1..], path, level, tombstone)
  }

  /** All items of the tree at `path`; the root itself gets none, and its marks are not inherited. */
  function LoadTree(root: Node, path: Path): (items: seq<Item>) {
    if root.Leaf? then [] else LoadAll(root.children, path, 0, false)
  }

  // ----- The loop computes those items

  lemma {:induction false} NewestOfMax(a: int, b: int, children: seq<Node>)
    ensures Newest(Max(a, b), children) == Max(a, Newest(b, children))
    decreases children
  {
    if children != [] {
      var c := MaxMtime(children[0]);
      NewestOfMax(a, Max(b, c), children[1..]);
      assert Max(Max(a, b), c) == Max(a, Max(b, c));
    }
  }

  /** What collecting a group adds to its item. */
  ghost function Collected(s: Loading, size: int, modified: int): (r: Loading)
    requires s.group.Some?
  {
    var item := s.items[s.group.value];
    s.(items := s.items[s.group.value := item.(size := item.size + size, modified := modified)])
  }

  lemma CollectedTwice(s: Loading, a: int, b: int, m1: int, m2: int)
    requires s.group.Some?
    ensures Collected(Collected(s, a, m1), b, m2) == Collected(s, a + b, m2)
  {
  }

  /** The report of an entry of a group adds it to the group's item; leaving a directory there adds nothing. */
  lemma CollectEntry(n: Node, path: Path, level: nat, parent: Stat, s: Loading)
    requires s.group.Some? && s.items[s.group.value].level < level
    ensures StepItem(s, Report(Enter(n, path, level, parent)))
            == Collected(s, SizeOf(n), Max(s.items[s.group.value].modified, n.stat.mtime))
    ensures StepItem(s, Report(Leave(n, path, level, parent))) == s
  {
  }

  lemma {:induction false} CollectNode(n: Node, path: Path, level: nat, parent: Stat, s: Loading)
    requires s.group.Some? && s.items[s.group.value].level < level
    ensures Run(Step(), [Enter(n, path, level, parent)], s)
            == Collected(s, UsedBy(n), Max(s.items[s.group.value].modified, MaxMtime(n)))
    decreases n
  {
    CollectEntry(n, path, level, parent, s);
    var w := Enter(n, path, level, parent);
    if n.Leaf? {
      RunLeaf(Step(), w, s);
    } else {
      var modified := s.items[s.group.value].modified;
      var s1 := Collected(s, SizeOf(n), Max(modified, n.stat.mtime));
      RunDir(Step(), w, s);
      CollectChildren(n.children, path, level, n.stat, s1);
      NewestOfMax(modified, n.stat.mtime, n.children);
      CollectedTwice(s, SizeOf(n), UsedByAll(n.children), Max(modified, n.stat.mtime), Max(modified, MaxMtime(n)));
      CollectEntry(n, path, level, parent, Collected(s, UsedBy(n), Max(modified, MaxMtime(n))));
    }
  }

  lemma {:induction false} CollectChildren(children: seq<Node>, path: Path, level: nat, parent: Stat, s: Loading)
    requires s.group.Some? && s.items[s.group.value].level <= level
    ensures Run(Step(), ChildWork(children, path, level, parent), s)
            == Collected(s, UsedByAll(children), Newest(s.items[s.group.value].modified, children))
    decreases children
  {
    if children != [] {
      RunChildren(Step(), children, path, level, parent, s);
      var c := children[0];
      CollectNode(c, path + [c.name], level + 1, parent, s);
      var s1 := Collected(s, UsedBy(c), Max(s.items[s.group.value].modified, MaxMtime(c)));
      CollectChildren(children[1..], path, level, parent, s1);
      var newest := Newest(s.items[s.group.value].modified, children);
      CollectedTwice(s, UsedBy(c), UsedByAll(children[1..]), Max(s.items[s.group.value].modified, MaxMtime(c)), newest);
    }
  }

  /** The pointers of all entries nearer to the root than `depth` are as before. */
  ghost predicate SameAbove(before: map<Path, nat>, after: map<Path, nat>, depth: nat) {
    forall q: Path :: |q| < depth ==> Lookup(before, q) == Lookup(after, q)
  }

  /** The tombstone mark an entry inherits. */
  ghost function Inherited(s: Loading, up: Option<nat>): bool
    requires up.Some? ==> up.value < |s.items|
  {
    up.Some? && s.items[up.value].tombstone
  }

  /** What walking the node at `path`, with nothing being collected, must lead to. */
  ghost predicate Visited(n: Node, path: Path, level: nat, s: Loading, s': Loading) {
    var up := Upper(s, path);
    && s'.group.None?
    && s'.items == Raise(s.items, up, MaxMtime(n)) + Load(n, path, level, Inherited(s, up))
    && SameAbove(s.pointer, s'.pointer, |path|)
  }

  ghost predicate Visitable(path: Path, level: nat, s: Loading) {
    && path != [] && level > 0 && s.group.None?
    && (Upper(s, path).Some? ==> !s.items[Upper(s, path).value].group)
  }

  lemma {:induction false} VisitNode(n: Node, path: Path, level: nat, parent: Stat, s: Loading)
    requires Visitable(path, level, s)
    ensures Visited(n, path, level, s, Run(Step(), [Enter(n, path, level, parent)], s))
    decreases n, 1
  {
    if n.Leaf? {
      RunLeaf(Step(), Enter(n, path, level, parent), s);
    } else if n.xattrs.group {
      VisitGroup(n, path, level, parent, s);
    } else {
      VisitPlain(n, path, level, parent, s);
    }
  }

  /** Raising one of the first items does not touch what comes after them. */
  lemma RaiseFirst(items: seq<Item>, tail: seq<Item>, k: Option<nat>, modified: int)
    requires k.Some? ==> k.value < |items|
    ensures Raise(items + tail, k, modified) == Raise(items, k, modified) + tail
  {
  }

  lemma RaiseRest(items: seq<Item>, k: Option<nat>, children: seq<Node>, tail: seq<Item>)
    requires children != []
    requires k.Some? ==> k.value < |items|
    ensures RaiseAll(Raise(items, k, MaxMtime(children[0])) + tail, k, children[1..])
            == RaiseAll(items, k, children) + tail
  {
  }

  lemma Regroup<T>(a: seq<T>, b: seq<T>, c: seq<T>)
    ensures (a + b) + c == a + (b + c)
  {
  }

  lemma ReplaceLast(items: seq<Item>, a: Item, b: Item)
    ensures (items + [a])[|items| := b] == items + [b]
  {
  }

  /** The FTS_D report of a directory adds its item and, for a group, starts collecting. */
  lemma EnterDir(n: Node, path: Path, level: nat, parent: Stat, s: Loading) returns (r: Loading)
    requires Visitable(path, level, s) && n.Dir?
    ensures r == StepItem(s, Report(Enter(n, path, level, parent)))
    ensures var mark := Inherited(s, Upper(s, path)) || n.xattrs.tombstone;
            && r.items == s.items + [Item(path, level, true, n.xattrs.group, mark, SizeOf(n), n.stat.mtime)]
            && r.pointer == s.pointer[path := |s.items|]
            && r.group == if n.xattrs.group then Some(|s.items|) else None
  {
    r := StepItem(s, Report(Enter(n, path, level, parent)));
  }

  lemma VisitGroup(n: Node, path: Path, level: nat, parent: Stat, s: Loading)
    requires Visitable(path, level, s)
    requires n.Dir? && n.xattrs.group
    ensures Visited(n, path, level, s, Run(Step(), [Enter(n, path, level, parent)], s))
  {
    var w := Enter(n, path, level, parent);
    RunDir(Step(), w, s);
    var s1 := EnterDir(n, path, level, parent, s);
    var item := s1.items[|s.items|];
    CollectChildren(n.children, path, level, n.stat, s1);
    var done := item.(size := UsedBy(n), modified := MaxMtime(n));
    var s2: Loading := s1.(items := s.items + [done]);
    assert Collected(s1, UsedByAll(n.children), MaxMtime(n)) == s2 by {
      ReplaceLast(s.items, item, done);
    }
    EndGroup(n, path, level, parent, s, s2);
  }

  /** The FTS_DP report of the group's own directory ends the collecting. */
  lemma EndGroup(n: Node, path: Path, level: nat, parent: Stat, s: Loading, s': Loading)
    requires Visitable(path, level, s) && s'.group == Some(|s.items|)
    requires s'.pointer == s.pointer[path := |s.items|]
    requires |s'.items| == |s.items| + 1 && s'.items[..|s.items|] == s.items
    requires s'.items[|s.items|].level == level && s'.items[|s.items|].modified == MaxMtime(n)
    ensures var r := StepItem(s', Report(Leave(n, path, level, parent)));
            && r.group.None? && r.pointer == s'.pointer
            && r.items == Raise(s.items, Upper(s, path), MaxMtime(n)) + [s'.items[|s.items|]]
  {
    RaiseFirst(s.items, s'.items[|s.items|..], Upper(s, path), MaxMtime(n));
    assert s'.items == s.items + s'.items[|s.items|..];
  }

  lemma {:induction false} VisitPlain(n: Node, path: Path, level: nat, parent: Stat, s: Loading)
    requires Visitable(path, level, s)
    requires n.Dir? && !n.xattrs.group
    ensures Visited(n, path, level, s, Run(Step(), [Enter(n, path, level, parent)], s))
    decreases n, 0
  {
    RunDir(Step(), Enter(n, path, level, parent), s);
    var k := |s.items|;
    var s1 := EnterDir(n, path, level, parent, s);
    var item := s1.items[k];
    VisitChildren(n.children, path, level, n.stat, s1);
    var s2 := Run(Step(), ChildWork(n.children, path, level, n.stat), s1);
    var done := item.(modified := MaxMtime(n));
    var below := LoadAll(n.children, path, level, item.tombstone);
    assert s2.items == s.items + ([done] + below) by {
      ReplaceLast(s.items, item, done);
      Regroup(s.items, [done], below);
    }
    EndPlain(n, path, level, parent, s, s2, [done] + below);
  }

  /** The FTS_DP report of any other directory hands its newest time to the directory above. */
  lemma EndPlain(n: Node, path: Path, level: nat, parent: Stat, s: Loading, s': Loading, added: seq<Item>)
    requires Visitable(path, level, s) && s'.group.None? && s'.items == s.items + added
    requires added != [] && added[0].modified == MaxMtime(n)
    requires Lookup(s'.pointer, path) == Some(|s.items|) && Upper(s', path) == Upper(s, path)
    ensures var r := StepItem(s', Report(Leave(n, path, level, parent)));
            && r.group.None? && r.pointer == s'.pointer
            && r.items == Raise(s.items, Upper(s, path), MaxMtime(n)) + added
  {
    RaiseFirst(s.items, added, Upper(s, path), MaxMtime(n));
  }

  lemma {:induction false} VisitChildren(children: seq<Node>, path: Path, level: nat, parent: Stat, s: Loading)
    requires s.group.None?
    requires Lookup(s.pointer, path).Some? ==> !s.items[s.pointer[path]].group
    ensures var up := Lookup(s.pointer, path);
            var s' := Run(Step(), ChildWork(children, path, level, parent), s);
            && s'.group.None?
            && s'.items == RaiseAll(s.items, up, children) + LoadAll(children, path, level, Inherited(s, up))
            && SameAbove(s.pointer, s'.pointer, |path| + 1)
    decreases children
  {
    if children != [] {
      var c := children[0];
      var below := path + [c.name];
      assert ParentOf(below) == path;
      RunChildren(Step(), children, path, level, parent, s);
      VisitNode(c, below, level + 1, parent, s);
      var s1 := Run(Step(), [Enter(c, below, level + 1, parent)], s);
      var up := Lookup(s.pointer, path);
      assert Lookup(s1.pointer, path) == up;
      VisitChildren(children[1..], path, level, parent, s1);
      var s2 := Run(Step(), ChildWork(children[1..], path, level, parent), s1);
      var mark := Inherited(s, up);
      var loaded := Load(c, below, level + 1, mark);
      RaiseRest(s.items, up, children, loaded);
      Regroup(RaiseAll(s.items, up, children), loaded, LoadAll(children[1..], path, level, mark));
    }
  }

  /** A whole walk appends the items of the tree to the items loaded before. */
  lemma WalkIsLoad(root: Node, path: Path, items: seq<Item>)
    ensures Run<Loading>(Step(), [Enter(root, path, 0, root.stat)], LoadState(items, map[], None)).items
            == items + LoadTree(root, path)
  {
    var w := Enter(root, path, 0, root.stat);
    var s: Loading := LoadState(items, map[], None);
    if root.Leaf? {
      RunLeaf(Step(), w, s);
    } else {
      RunDir(Step(), w, s);
      VisitChildren(root.children, path, 0, root.stat, s);
    }
  }
}
