/**
  What a walk finds of a tree later in the same call: entries that were purged
  are gone, a file that was emptied holds no blocks, and what was changed has a
  new modification time.
*/
module SeenTrees {
  import opened Fts
  import opened CacheItems
  import opened CacheCoverage
  import opened Purge
  import opened GroupPurge

  /** The modification time of a changed entry of a file system. */
  type Clock = (Path, Files) -> int

  /** A regular file that had contents at the start and has none now. */
  predicate IsEmptied(start: Files, now: Files, p: Path) {
    IsFile(start, p) && !start[p].empty && IsFile(now, p) && now[p].empty
  }

  /** A directory that lost one of its entries. */
  predicate LostEntry(start: Files, now: Files, p: Path) {
    exists q <- start.Keys :: q !in now && q != [] && ParentOf(q) == p
  }

  function StatNow(stat: Stat, p: Path, start: Files, now: Files, clock: Clock): Stat {
    if IsEmptied(start, now, p) then stat.(blocks := 0, mtime := clock(p, now))
    else if LostEntry(start, now, p) then stat.(mtime := clock(p, now))
    else stat
  }

  /** The tree at `p`, which was `n` in the file system `start`, as a walk finds it in `now`. */
  function Pruned(n: Node, p: Path, start: Files, now: Files, clock: Clock): Node
    decreases n
  {
    match n
    case Leaf(name, kind, stat) => Leaf(name, kind, StatNow(stat, p, start, now, clock))
    case Dir(name, stat, xattrs, children) =>
      Dir(name, StatNow(stat, p, start, now, clock), xattrs, PrunedAll(children, p, start, now, clock))
  }

  function PrunedAll(children: seq<Node>, p: Path, start: Files, now: Files, clock: Clock): seq<Node>
    decreases children
  {
    if children == [] then []
    else
      var below := p + [children[0].name];
      (if below in now then [Pruned(children[0], below, start, now, clock)] else [])
      + PrunedAll(children[1..], p, start, now, clock)
  }

  lemma PrunedFirst(children: seq<Node>, p: Path, start: Files, now: Files, clock: Clock)
    requires children != []
    ensures var all, rest := PrunedAll(children, p, start, now, clock), PrunedAll(children[1..], p, start, now, clock);
            var below := p + [children[0].name];
            if below in now then
              all != [] && all[0] == Pruned(children[0], below, start, now, clock) && all[1..] == rest
            else all == rest
  {
  }

  // ----- The later tree mirrors the later file system

  lemma {:induction false} PrunedNames(children: seq<Node>, p: Path, start: Files, now: Files, clock: Clock)
    ensures forall d <- PrunedAll(children, p, start, now, clock) ::
              exists c <- children :: IsPruned(c, d, p, start, now, clock)
    ensures forall c <- children | p + [c.name] in now ::
              Pruned(c, p + [c.name], start, now, clock) in PrunedAll(children, p, start, now, clock)
  {
    if children != [] {
      var c, rest := children[0], children[1..];
      PrunedNames(rest, p, start, now, clock);
      forall d <- PrunedAll(children, p, start, now, clock)
        ensures exists c <- children :: IsPruned(c, d, p, start, now, clock)
      {
        if d in PrunedAll(rest, p, start, now, clock) {
          var e :| e in rest && IsPruned(e, d, p, start, now, clock);
          assert e in children;
        } else {
          assert c in children && IsPruned(c, d, p, start, now, clock);
        }
      }
    }
  }

  ghost predicate IsPruned(c: Node, d: Node, p: Path, start: Files, now: Files, clock: Clock) {
    d.name == c.name && p + [c.name] in now && d == Pruned(c, p + [c.name], start, now, clock)
  }

  lemma {:induction false} DistinctPruned(n: Node, p: Path, start: Files, now: Files, clock: Clock)
    requires DistinctNames(n)
    ensures DistinctNames(Pruned(n, p, start, now, clock))
    decreases n
  {
    if n.Dir? {
      DistinctAllPruned(n.children, p, start, now, clock);
    }
  }

  lemma {:induction false} DistinctAllPruned(children: seq<Node>, p: Path, start: Files, now: Files, clock: Clock)
    requires DistinctAll(children)
    ensures DistinctAll(PrunedAll(children, p, start, now, clock))
    decreases children
  {
    if children != [] {
      var below, rest := p + [children[0].name], children[1..];
      DistinctAllPruned(rest, p, start, now, clock);
      PrunedFirst(children, p, start, now, clock);
      if below in now {
        DistinctPruned(children[0], below, start, now, clock);
        PrunedNames(rest, p, start, now, clock);
      }
    }
  }

  /** While a file system dwindles, its trees keep mirroring it. */
  lemma {:induction false} MirrorsPruned(n: Node, p: Path, start: Files, now: Files, clock: Clock)
    requires Mirrors(start, n, p) && Dwindled(start, now) && Closed(now, []) && p in now
    ensures Mirrors(now, Pruned(n, p, start, now, clock), p)
    decreases n
  {
    assert Spent(now[p]) == Spent(start[p]);
    if n.Dir? {
      var children := PrunedAll(n.children, p, start, now, clock);
      DistinctAllPruned(n.children, p, start, now, clock);
      PrunedNames(n.children, p, start, now, clock);
      forall q <- now.Keys | p < q ensures Below(children, p, q) {
        BelowPruned(n, p, start, now, clock, q);
      }
      forall d <- children ensures Mirrors(now, d, p + [d.name]) {
        var c :| c in n.children && IsPruned(c, d, p, start, now, clock);
        MirrorsPruned(c, p + [c.name], start, now, clock);
      }
    }
  }

  lemma BelowPruned(n: Node, p: Path, start: Files, now: Files, clock: Clock, q: Path)
    requires n.Dir? && Mirrors(start, n, p) && Dwindled(start, now) && Closed(now, []) && p < q && q in now
    ensures Below(PrunedAll(n.children, p, start, now, clock), p, q)
  {
    var c :| c in n.children && p + [c.name] <= q;
    var below := p + [c.name];
    if below != q {
      AncestorOf(now, [], below, q);
    }
    PrunedNames(n.children, p, start, now, clock);
    var d := Pruned(c, below, start, now, clock);
    assert d in PrunedAll(n.children, p, start, now, clock) && p + [d.name] <= q;
  }

  // ----- It has no more items, and uses no more space

  lemma {:induction false} FewerItems(n: Node, p: Path, level: nat, tombstone: bool,
                                      start: Files, now: Files, clock: Clock)
    ensures |Load(Pruned(n, p, start, now, clock), p, level, tombstone)| <= |Load(n, p, level, tombstone)|
    decreases n
  {
    if n.Dir? && !n.xattrs.group {
      FewerItemsInAll(n.children, p, level, tombstone || n.xattrs.tombstone, start, now, clock);
    }
  }

  lemma {:induction false} FewerItemsInAll(children: seq<Node>, p: Path, level: nat, tombstone: bool,
                                           start: Files, now: Files, clock: Clock)
    ensures |LoadAll(PrunedAll(children, p, start, now, clock), p, level, tombstone)|
            <= |LoadAll(children, p, level, tombstone)|
    decreases children
  {
    if children != [] {
      var below, rest := p + [children[0].name], children[1..];
      FewerItemsInAll(rest, p, level, tombstone, start, now, clock);
      PrunedFirst(children, p, start, now, clock);
      if below in now {
        FewerItems(children[0], below, level + 1, tombstone, start, now, clock);
      }
    }
  }

  /** Blocks that the tree had at the start are gone: a file was emptied or something was removed. */
  ghost predicate Lost(n: Node, p: Path, start: Files, now: Files)
    decreases n
  {
    || (n.stat.blocks > 0 && IsEmptied(start, now, p))
    || (n.Dir? && exists c <- n.children ::
          if p + [c.name] in now then Lost(c, p + [c.name], start, now) else UsedBy(c) > 0)
  }

  /** A walk now finds at most the space that it found at the start, and exactly as much when nothing was lost. */
  lemma {:induction false} LessUse(n: Node, p: Path, start: Files, now: Files, clock: Clock)
    ensures UsedBy(Pruned(n, p, start, now, clock)) <= UsedBy(n)
    ensures UsedBy(Pruned(n, p, start, now, clock)) == UsedBy(n) <==> !Lost(n, p, start, now)
    decreases n
  {
    if n.Dir? {
      LessUseInAll(n.children, p, start, now, clock);
    }
  }

  lemma {:induction false} LessUseInAll(children: seq<Node>, p: Path, start: Files, now: Files, clock: Clock)
    ensures UsedByAll(PrunedAll(children, p, start, now, clock)) <= UsedByAll(children)
    ensures UsedByAll(PrunedAll(children, p, start, now, clock)) == UsedByAll(children)
            <==> !exists c <- children ::
                   if p + [c.name] in now then Lost(c, p + [c.name], start, now) else UsedBy(c) > 0
    decreases children
  {
    if children != [] {
      var c, rest := children[0], children[1..];
      PrunedFirst(children, p, start, now, clock);
      LessUse(c, p + [c.name], start, now, clock);
      LessUseInAll(rest, p, start, now, clock);
      assert forall d :: d in children <==> d == c || d in rest;
    }
  }

  // ----- Trees up to sizes and times

  ghost function Bones(n: Node): Node {
    match n
    case Leaf(name, kind, stat) => Leaf(name, kind, stat.(blocks := 0, mtime := 0))
    case Dir(name, stat, xattrs, children) => Dir(name, stat.(blocks := 0, mtime := 0), xattrs, BonesAll(children))
  }

  ghost function BonesAll(children: seq<Node>): (r: seq<Node>)
    ensures |r| == |children|
    ensures forall i :: 0 <= i < |children| ==> r[i] == Bones(children[i])
  {
    if children == [] then [] else [Bones(children[0])] + BonesAll(children[1..])
  }

  lemma BelowBones(children: seq<Node>, path: Path, q: Path)
    ensures Below(BonesAll(children), path, q) <==> Below(children, path, q)
  {
    var all := BonesAll(children);
    if Below(children, path, q) {
      var i :| 0 <= i < |children| && path + [children[i].name] <= q;
      assert all[i] in all && path + [all[i].name] <= q;
    }
    if Below(all, path, q) {
      var i :| 0 <= i < |all| && path + [all[i].name] <= q;
      assert children[i] in children && path + [children[i].name] <= q;
    }
  }

  lemma {:induction false} DistinctBones(n: Node)
    ensures DistinctNames(Bones(n)) <==> DistinctNames(n)
    decreases n
  {
    if n.Dir? {
      DistinctAllBones(n.children);
    }
  }

  lemma {:induction false} DistinctAllBones(children: seq<Node>)
    ensures DistinctAll(BonesAll(children)) <==> DistinctAll(children)
    decreases children
  {
    if children != [] {
      var all, rest := BonesAll(children), children[1..];
      assert all[1..] == BonesAll(rest);
      DistinctBones(children[0]);
      DistinctAllBones(rest);
      assert forall i :: 0 <= i < |rest| ==> BonesAll(rest)[i].name == rest[i].name;
    }
  }

  lemma {:induction false} MirrorsBones(fs: Files, n: Node, path: Path)
    ensures Mirrors(fs, Bones(n), path) <==> Mirrors(fs, n, path)
    decreases n
  {
    if n.Dir? {
      var children, all := n.children, BonesAll(n.children);
      DistinctAllBones(children);
      forall q ensures Below(all, path, q) <==> Below(children, path, q) {
        BelowBones(children, path, q);
      }
      forall i | 0 <= i < |children|
        ensures Mirrors(fs, all[i], path + [all[i].name]) <==> Mirrors(fs, children[i], path + [children[i].name])
      {
        MirrorsBones(fs, children[i], path + [children[i].name]);
      }
    }
  }

  /** Items up to their sizes and times. */
  ghost function Bare(items: seq<Item>): (r: seq<Item>)
    ensures |r| == |items|
    ensures forall i :: 0 <= i < |items| ==> r[i] == items[i].(size := 0, modified := 0)
  {
    seq(|items|, i requires 0 <= i < |items| => items[i].(size := 0, modified := 0))
  }

  lemma BareSplit(a: seq<Item>, b: seq<Item>)
    ensures Bare(a + b) == Bare(a) + Bare(b)
  {
  }

  lemma LoadDir(n: Node, path: Path, level: nat, tombstone: bool)
    requires n.Dir? && !n.xattrs.group
    ensures var mark := tombstone || n.xattrs.tombstone;
            Bare(Load(n, path, level, tombstone))
            == [Item(path, level, true, false, mark, 0, 0)] + Bare(LoadAll(n.children, path, level, mark))
  {
    var mark := tombstone || n.xattrs.tombstone;
    BareSplit([Item(path, level, true, false, mark, SizeOf(n), MaxMtime(n))], LoadAll(n.children, path, level, mark));
  }

  lemma {:induction false} LoadBones(n: Node, path: Path, level: nat, tombstone: bool)
    ensures Bare(Load(Bones(n), path, level, tombstone)) == Bare(Load(n, path, level, tombstone))
    decreases n
  {
    if n.Dir? && !n.xattrs.group {
      LoadAllBones(n.children, path, level, tombstone || n.xattrs.tombstone);
      LoadDir(n, path, level, tombstone);
      LoadDir(Bones(n), path, level, tombstone);
    }
  }

  lemma {:induction false} LoadAllBones(children: seq<Node>, path: Path, level: nat, tombstone: bool)
    ensures Bare(LoadAll(BonesAll(children), path, level, tombstone))
            == Bare(LoadAll(children, path, level, tombstone))
    decreases children
  {
    if children != [] {
      var c, rest, below := children[0], children[1..], path + [children[0].name];
      assert BonesAll(children)[1..] == BonesAll(rest);
      LoadBones(c, below, level + 1, tombstone);
      LoadAllBones(rest, path, level, tombstone);
      BareSplit(Load(c, below, level + 1, tombstone), LoadAll(rest, path, level, tombstone));
      BareSplit(Load(Bones(c), below, level + 1, tombstone), LoadAll(BonesAll(rest), path, level, tombstone));
    }
  }

  /** Trees with the same bones have the same items, up to sizes and times. */
  lemma SameItem(a: Node, b: Node, path: Path, item: Item) returns (other: Item)
    requires Bones(a) == Bones(b) && item in LoadTree(a, path)
    ensures other in LoadTree(b, path)
    ensures other.path == item.path && other.directory == item.directory
    ensures other.group == item.group && other.tombstone == item.tombstone
  {
    LoadAllBones(a.children, path, 0, false);
    LoadAllBones(b.children, path, 0, false);
    var ours, theirs := LoadTree(a, path), LoadTree(b, path);
    var i :| 0 <= i < |ours| && ours[i] == item;
    assert Bare(ours) == Bare(theirs);
    assert Bare(ours)[i] == Bare(theirs)[i];
    other := theirs[i];
  }

  /** Nothing came or went at or below `p`. */
  ghost predicate Untouched(p: Path, start: Files, now: Files) {
    forall q | p <= q :: q in now <==> q in start
  }

  /** Then the tree found later has the same bones. */
  lemma {:induction false} PrunedBones(n: Node, p: Path, start: Files, now: Files, clock: Clock)
    requires Mirrors(start, n, p) && Untouched(p, start, now)
    ensures Bones(Pruned(n, p, start, now, clock)) == Bones(n)
    decreases n
  {
    if n.Dir? {
      PrunedAllBones(n.children, p, start, now, clock);
    }
  }

  lemma {:induction false} PrunedAllBones(children: seq<Node>, p: Path, start: Files, now: Files, clock: Clock)
    requires forall c <- children :: Mirrors(start, c, p + [c.name])
    requires Untouched(p, start, now)
    ensures BonesAll(PrunedAll(children, p, start, now, clock)) == BonesAll(children)
    decreases children
  {
    if children != [] {
      var below := p + [children[0].name];
      PrunedFirst(children, p, start, now, clock);
      UntouchedBelow(p, below, start, now);
      PrunedBones(children[0], below, start, now, clock);
      PrunedAllBones(children[1..], p, start, now, clock);
    }
  }

  lemma UntouchedBelow(p: Path, below: Path, start: Files, now: Files)
    requires Untouched(p, start, now) && p <= below
    ensures Untouched(below, start, now)
  {
  }

  /** At the start a walk finds the tree itself. */
  lemma {:induction false} PrunedSelf(n: Node, p: Path, fs: Files, clock: Clock)
    requires Mirrors(fs, n, p)
    ensures Pruned(n, p, fs, fs, clock) == n
    decreases n
  {
    if n.Dir? {
      PrunedAllSelf(n.children, p, fs, clock);
    }
  }

  lemma {:induction false} PrunedAllSelf(children: seq<Node>, p: Path, fs: Files, clock: Clock)
    requires forall c <- children :: Mirrors(fs, c, p + [c.name])
    ensures PrunedAll(children, p, fs, fs, clock) == children
    decreases children
  {
    if children != [] {
      PrunedFirst(children, p, fs, fs, clock);
      PrunedSelf(children[0], p + [children[0].name], fs, clock);
      PrunedAllSelf(children[1..], p, fs, clock);
    }
  }
}
