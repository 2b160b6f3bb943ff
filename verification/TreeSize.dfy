/** `calculate_tree_size`: the disk use of a tree, filtered by group and by app ownership. */
module TreeSize {
  import opened Wrappers
  import opened Fts

  const NO_GID := -1

  /** The optional arguments; NO_GID switches a group filter off. */
  datatype Filter = Filter(includeGid: int, excludeGid: int, excludeApps: bool)

  const EVERYTHING := Filter(NO_GID, NO_GID, false)

  /** Does this (uid, gid) pair fall into the app, cache or shared id ranges? */
  type Owner = (int, int) -> bool

  /** The owner test of a measurement that excludes no apps. */
  function NoOwner(): Owner {
    (uid: int, gid: int) => false
  }

  predicate Hidden(f: Filter, owned: Owner, n: Node) {
    f.excludeApps && owned(n.stat.uid, n.stat.gid)
  }

  predicate Counted(f: Filter, n: Node) {
    && (f.includeGid == NO_GID || n.stat.gid == f.includeGid)
    && (f.excludeGid == NO_GID || n.stat.gid != f.excludeGid)
  }

  // ----- The size of a tree, by recursion on the tree

  function Size(f: Filter, owned: Owner, n: Node): nat {
    if Hidden(f, owned, n) then 0
    else (if Counted(f, n) then SizeOf(n) else 0)
         + (if n.Dir? then SizeAll(f, owned, n.children) else 0)
  }

  function SizeAll(f: Filter, owned: Owner, children: seq<Node>): nat {
    if children == [] then 0 else Size(f, owned, children[0]) + SizeAll(f, owned, children[1..])
  }

  // ----- The walk

  /** One report: the new total and whether to stay out of the directory. */
  function Step(f: Filter, owned: Owner): (int, Entry) -> (int, bool) {
    (total: int, p: Entry) =>
      if p.info == FTS_DP then (total, false)
      else if Hidden(f, owned, p.node) then (total, true)
      else if f.includeGid != NO_GID && p.node.stat.gid != f.includeGid then (total, false)
      else if f.excludeGid != NO_GID && p.node.stat.gid == f.excludeGid then (total, false)
      else (total + SizeOf(p.node), false)
  }

  lemma {:induction false} WalkIsSize(f: Filter, owned: Owner, n: Node, path: Path, level: nat, parent: Stat, s: int)
    ensures Run(Step(f, owned), [Enter(n, path, level, parent)], s) == s + Size(f, owned, n)
  {
    var w := Enter(n, path, level, parent);
    match n {
      case Leaf(_, _, _) =>
        RunLeaf(Step(f, owned), w, s);
      case Dir(_, stat, _, children) =>
        RunDir(Step(f, owned), w, s);
        WalkIsSizeAll(f, owned, children, path, level, stat, Step(f, owned)(s, Report(w)).0);
    }
  }

  lemma {:induction false} WalkIsSizeAll(f: Filter, owned: Owner, children: seq<Node>, path: Path, level: nat,
                                         parent: Stat, s: int)
    ensures Run(Step(f, owned), ChildWork(children, path, level, parent), s) == s + SizeAll(f, owned, children)
  {
    if children != [] {
      var first, rest := Size(f, owned, children[0]), SizeAll(f, owned, children[1..]);
      RunChildren(Step(f, owned), children, path, level, parent, s);
      WalkIsSize(f, owned, children[0], path + [children[0].name], level + 1, parent, s);
      WalkIsSizeAll(f, owned, children[1..], path, level, parent, s + first);
      assert SizeAll(f, owned, children) == first + rest;
    }
  }

  /** Adds the size of `tree` to `size`; None is a tree that cannot be opened. */
  method CalculateTreeSize(tree: Option<Node>, size: int, f: Filter, owned: Owner) returns (res: int, newSize: int)
    ensures tree.None? ==> res == -1 && newSize == size
    ensures tree.Some? ==> res == 0 && newSize == size + Size(f, owned, tree.value)
  {
    if tree.None? {
      return -1, size;
    }
    ghost var end := Size(f, owned, tree.value);
    WalkIsSize(f, owned, tree.value, [], 0, tree.value.stat, 0);
    var matched := 0;
    var fts := new Walk(tree.value, []);
    var p := fts.Read();
    while p.Some?
      invariant fresh(fts) && fts.started && !fts.skip
      invariant p == if fts.work == [] then None else Some(Report(fts.work[0]))
      invariant Run(Step(f, owned), fts.work, matched) == end
      decreases Pending(fts.work)
    {
      var n := p.value.node;
      ghost var before := matched;
      if p.value.info != FTS_DP {
        if f.excludeApps && owned(n.stat.uid, n.stat.gid) {
          fts.Skip();
        } else if f.includeGid != NO_GID && n.stat.gid != f.includeGid {
        } else if f.excludeGid != NO_GID && n.stat.gid == f.excludeGid {
        } else {
          matched := matched + SizeOf(n);
        }
      }
      RunStep(Step(f, owned), fts.work, before, matched, fts.skip);
      p := fts.Read();
    }
    return 0, size + matched;
  }

  // ----- What is counted

  /** The group and the size of every entry, without what lies at and below entries of apps when they are excluded. */
  function Entries(excludeApps: bool, owned: Owner, n: Node): seq<(int, nat)> {
    if excludeApps && owned(n.stat.uid, n.stat.gid) then []
    else [(n.stat.gid, 512 * n.stat.blocks)] + (if n.Dir? then EntriesOfAll(excludeApps, owned, n.children) else [])
  }

  function EntriesOfAll(excludeApps: bool, owned: Owner, children: seq<Node>): seq<(int, nat)> {
    if children == [] then []
    else Entries(excludeApps, owned, children[0]) + EntriesOfAll(excludeApps, owned, children[1..])
  }

  /** The sizes of those entries that are of the included group, if there is one, and not of the excluded one. */
  function SumWhere(entries: seq<(int, nat)>, includeGid: int, excludeGid: int): nat {
    if entries == [] then 0
    else
      var (gid, size) := entries[0];
      (if (includeGid == -1 || gid == includeGid) && (excludeGid == -1 || gid != excludeGid) then size else 0)
      + SumWhere(entries[1..], includeGid, excludeGid)
  }

  lemma {:induction false} SumSplit(a: seq<(int, nat)>, b: seq<(int, nat)>, includeGid: int, excludeGid: int)
    ensures SumWhere(a + b, includeGid, excludeGid)
            == SumWhere(a, includeGid, excludeGid) + SumWhere(b, includeGid, excludeGid)
  {
    if a == [] {
      assert a + b == b;
    } else {
      SumSplit(a[1..], b, includeGid, excludeGid);
      assert (a + b)[0] == a[0] && (a + b)[1..] == a[1..] + b;
    }
  }

  /** The filtered size is the sum over these entries. */
  lemma {:induction false} SizeIsSum(f: Filter, owned: Owner, n: Node)
    ensures Size(f, owned, n) == SumWhere(Entries(f.excludeApps, owned, n), f.includeGid, f.excludeGid)
    decreases n
  {
    if !(f.excludeApps && owned(n.stat.uid, n.stat.gid)) {
      var own := [(n.stat.gid, 512 * n.stat.blocks)];
      var below := if n.Dir? then EntriesOfAll(f.excludeApps, owned, n.children) else [];
      SumSplit(own, below, f.includeGid, f.excludeGid);
      assert own[1..] == [];
      if n.Dir? {
        SizeIsSumOfAll(f, owned, n.children);
      }
    }
  }

  lemma {:induction false} SizeIsSumOfAll(f: Filter, owned: Owner, children: seq<Node>)
    ensures SizeAll(f, owned, children)
            == SumWhere(EntriesOfAll(f.excludeApps, owned, children), f.includeGid, f.excludeGid)
    decreases children
  {
    if children != [] {
      SizeIsSum(f, owned, children[0]);
      SizeIsSumOfAll(f, owned, children[1..]);
      SumSplit(Entries(f.excludeApps, owned, children[0]), EntriesOfAll(f.excludeApps, owned, children[1..]),
               f.includeGid, f.excludeGid);
    }
  }

  // ----- The two group filters split the unfiltered size

  lemma {:induction false} SplitByGid(g: int, apps: bool, owned: Owner, n: Node)
    requires g != NO_GID
    ensures Size(Filter(g, NO_GID, apps), owned, n) + Size(Filter(NO_GID, g, apps), owned, n)
            == Size(Filter(NO_GID, NO_GID, apps), owned, n)
  {
    if n.Dir? {
      SplitByGidAll(g, apps, owned, n.children);
    }
  }

  lemma {:induction false} SplitByGidAll(g: int, apps: bool, owned: Owner, children: seq<Node>)
    requires g != NO_GID
    ensures SizeAll(Filter(g, NO_GID, apps), owned, children) + SizeAll(Filter(NO_GID, g, apps), owned, children)
            == SizeAll(Filter(NO_GID, NO_GID, apps), owned, children)
  {
    if children != [] {
      SplitByGid(g, apps, owned, children[0]);
      SplitByGidAll(g, apps, owned, children[1..]);
    }
  }

  /**
    Including a group and excluding the same group measure complementary parts
    of a tree, for every tree and with or without the app exclusion. The only
    group this is not true of is the one that switches the filters off.
  */
  lemma GidFiltersPartition(g: int, apps: bool, owned: Owner, n: Node)
    ensures var total := Size(Filter(NO_GID, NO_GID, apps), owned, n);
            Size(Filter(g, NO_GID, apps), owned, n) + Size(Filter(NO_GID, g, apps), owned, n) == total
            <==> (g != NO_GID || total == 0)
  {
    if g != NO_GID {
      SplitByGid(g, apps, owned, n);
    }
  }

  /** The concrete exception: a one-block file measured with the switched-off group. */
  lemma SwitchedOffGidCountsTwice(owned: Owner)
    ensures var file := Leaf("f", Regular, Stat(1, 0, 0, 1, 0));
            Size(Filter(NO_GID, NO_GID, false), owned, file) + Size(Filter(NO_GID, NO_GID, false), owned, file)
            == 2 * BLOCK_SIZE
            != Size(EVERYTHING, owned, file)
  {
  }
}
