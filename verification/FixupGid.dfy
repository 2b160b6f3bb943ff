/**
  `fixupAppData`: the walks over every user's two data directories that give
  files below cache and code_cache the cache group of their app and all others
  the app's own.

  A directory walked is level 0, package directories are level 1. Only entries
  at level 2 and deeper are looked at. The walk reads the owners of the tree as
  it was when it started and issues chown and chmod calls; `After` is the tree
  those calls leave behind.
*/
module FixupGid {
  import opened Wrappers
  import opened Fts
  import opened CacheItems
  import opened CacheCoverage

  /** FLAG_FORCE, and the cache group of a uid (the uid itself when it has none). */
  datatype Config = Config(force: bool, cacheGid: int -> int)

  /** The calls made on one path: chown or lchown to `gid`, and chmod 02771 when `setgid`. */
  datatype Fix = Fix(gid: int, setgid: bool)

  type Fixes = map<Path, Fix>

  /** fts_number of the entries seen so far, and the calls made so far. */
  datatype Fixing = Fixing(number: map<Path, int>, fixes: Fixes)

  function NumberOf(number: map<Path, int>, p: Path): int {
    if p in number then number[p] else 0
  }

  /** The group expected of an entry of a package directory. */
  function ExpectedGid(cfg: Config, package: Node, child: Node): int
    requires package.Dir?
  {
    if || child.stat.ino == package.xattrs.inodeCache
       || child.stat.ino == package.xattrs.inodeCodeCache
       || child.name == "cache"
       || child.name == "code_cache"
    then cfg.cacheGid(package.stat.uid)
    else package.stat.uid
  }

  /** The entry's group belongs to the app but is not the one expected. */
  predicate Misplaced(cfg: Config, gid: int, expected: int, uid: int) {
    gid != expected && (gid == uid || gid == cfg.cacheGid(uid))
  }

  // ----- The walk

  function NumberChildren(cfg: Config, package: Node, children: seq<Node>, path: Path,
                          number: map<Path, int>): (r: map<Path, int>)
    requires package.Dir?
  {
    if children == [] then number
    else
      var c := children[0];
      NumberChildren(cfg, package, children[1..], path, number[path + [c.name] := ExpectedGid(cfg, package, c)])
  }

  function Numbered(number: map<Path, int>, p: Entry): map<Path, int> {
    if p.level > 2 && p.path != [] then number[p.path := NumberOf(number, ParentOf(p.path))] else number
  }

  function StepFix(cfg: Config, s: Fixing, p: Entry): (Fixing, bool) {
    if p.info == FTS_D && p.level == 1 && p.node.Dir? then
      (s.(number := NumberChildren(cfg, p.node, p.node.children, p.path, s.number)), false)
    else if p.level >= 2 then
      var number := Numbered(s.number, p);
      var uid := p.parent.uid;
      var expected := NumberOf(number, p.path);
      if !Misplaced(cfg, p.node.stat.gid, expected, uid) then
        (s.(number := number), !cfg.force)
      else if p.info == FTS_D || p.info == FTS_DEFAULT then
        (s.(number := number), false)
      else
        var setgid := p.info == FTS_DP && expected == cfg.cacheGid(uid);
        (Fixing(number, s.fixes[p.path := Fix(expected, setgid)]), false)
    else
      (s, false)
  }

  function Step(cfg: Config): (Fixing, Entry) -> (Fixing, bool) {
    (s: Fixing, p: Entry) => StepFix(cfg, s, p)
  }

  // ----- The calls made, by recursion on the tree

  /** Fixable entries; sockets, pipes and devices are not. */
  predicate Fixable(n: Node) {
    n.Dir? || n.kind != Special
  }

  function OwnFix(cfg: Config, n: Node, path: Path, expected: int, uid: int): Fixes {
    if Fixable(n) && Misplaced(cfg, n.stat.gid, expected, uid)
    then map[path := Fix(expected, n.Dir? && expected == cfg.cacheGid(uid))]
    else map[]
  }

  /** Is the walk let into a directory? */
  predicate Descends(cfg: Config, n: Node, expected: int, uid: int) {
    cfg.force || Misplaced(cfg, n.stat.gid, expected, uid)
  }

  function NodeFixes(cfg: Config, n: Node, path: Path, expected: int, uid: int): Fixes
    decreases n, 1
  {
    Inside(cfg, n, path, expected, uid) + OwnFix(cfg, n, path, expected, uid)
  }

  /** The calls made on what is inside a directory. */
  function Inside(cfg: Config, n: Node, path: Path, expected: int, uid: int): Fixes
    decreases n, 0
  {
    if n.Dir? && Descends(cfg, n, expected, uid) then AllFixes(cfg, n.children, path, expected, n.stat.uid) else map[]
  }

  function AllFixes(cfg: Config, children: seq<Node>, path: Path, expected: int, uid: int): Fixes
    decreases children
  {
    if children == [] then map[]
    else NodeFixes(cfg, children[0], path + [children[0].name], expected, uid)
         + AllFixes(cfg, children[1..], path, expected, uid)
  }

  /** The calls made in a package directory, each entry with its own expected group. */
  function PackageFixes(cfg: Config, package: Node, children: seq<Node>, path: Path): Fixes
    requires package.Dir?
  {
    if children == [] then map[]
    else
      var c := children[0];
      NodeFixes(cfg, c, path + [c.name], ExpectedGid(cfg, package, c), package.stat.uid)
      + PackageFixes(cfg, package, children[1..], path)
  }

  function PackagesFixes(cfg: Config, packages: seq<Node>, path: Path): Fixes {
    if packages == [] then map[]
    else
      var p := packages[0];
      (if p.Dir? then PackageFixes(cfg, p, p.children, path + [p.name]) else map[])
      + PackagesFixes(cfg, packages[1..], path)
  }

  function TreeFixes(cfg: Config, tree: Node, path: Path): Fixes {
    if tree.Dir? then PackagesFixes(cfg, tree.children, path) else map[]
  }

  // ----- The loop makes exactly these calls

  ghost predicate SameAbove(a: map<Path, int>, b: map<Path, int>, depth: nat) {
    forall q: Path :: |q| < depth ==> NumberOf(a, q) == NumberOf(b, q)
  }

  /** The expected group the walk sees at a node of level 2 or deeper. */
  function Seen(number: map<Path, int>, path: Path, level: nat): int
    requires path != []
  {
    NumberOf(number, if level > 2 then ParentOf(path) else path)
  }

  /** Numbers are only written at the depth of an entry of level 3 or more and below. */
  function Kept(path: Path, level: nat): nat {
    if level > 2 then |path| else |path| + 1
  }

  ghost predicate Made(s: Fixing, s': Fixing, fixes: Fixes, depth: nat) {
    s'.fixes == s.fixes + fixes && SameAbove(s.number, s'.number, depth)
  }

  lemma MadeTogether(s: Fixing, s1: Fixing, s2: Fixing, a: Fixes, b: Fixes, depth: nat)
    requires Made(s, s1, a, depth) && Made(s1, s2, b, depth)
    ensures Made(s, s2, a + b, depth)
  {
    assert s.fixes + (a + b) == (s.fixes + a) + b;
  }

  lemma MadeHigher(s: Fixing, s': Fixing, fixes: Fixes, deeper: nat, depth: nat)
    requires Made(s, s', fixes, deeper) && depth <= deeper
    ensures Made(s, s', fixes, depth)
  {
  }

  /** The FTS_D report of a deep directory. */
  lemma EnterDeep(cfg: Config, n: Node, path: Path, level: nat, parent: Stat, s: Fixing)
    requires level >= 2 && path != [] && n.Dir?
    ensures var (s', skip) := StepFix(cfg, s, Report(Enter(n, path, level, parent)));
            && Made(s, s', map[], Kept(path, level))
            && NumberOf(s'.number, path) == Seen(s.number, path, level)
            && skip == !Descends(cfg, n, Seen(s.number, path, level), parent.uid)
  {
  }

  /** The FTS_DP report of a deep directory, or the only report of a deep file. */
  lemma FinishDeep(cfg: Config, n: Node, path: Path, level: nat, parent: Stat, s: Fixing)
    requires level >= 2 && path != []
    ensures var w := if n.Dir? then Leave(n, path, level, parent) else Enter(n, path, level, parent);
            var s' := StepFix(cfg, s, Report(w)).0;
            Made(s, s', OwnFix(cfg, n, path, Seen(s.number, path, level), parent.uid), Kept(path, level))
  {
  }

  lemma {:induction false} WalkNode(cfg: Config, n: Node, path: Path, level: nat, parent: Stat, s: Fixing)
    requires level >= 2 && path != []
    ensures Made(s, Run<Fixing>(Step(cfg), [Enter(n, path, level, parent)], s),
                 NodeFixes(cfg, n, path, Seen(s.number, path, level), parent.uid), Kept(path, level))
    decreases n, 2
  {
    if n.Leaf? {
      var expected := Seen(s.number, path, level);
      FinishDeep(cfg, n, path, level, parent, s);
      RunLeaf<Fixing>(Step(cfg), Enter(n, path, level, parent), s);
      assert NodeFixes(cfg, n, path, expected, parent.uid) == OwnFix(cfg, n, path, expected, parent.uid);
    } else {
      WalkDir(cfg, n, path, level, parent, s);
    }
  }

  /** The walk of a deep directory: its FTS_D report, what is inside if it is let in, its FTS_DP report. */
  lemma RunDeepDir(cfg: Config, n: Node, path: Path, level: nat, parent: Stat, s: Fixing, s1: Fixing, s2: Fixing)
    requires level >= 2 && path != [] && n.Dir?
    requires s1 == StepFix(cfg, s, Report(Enter(n, path, level, parent))).0
    requires s2 == if Descends(cfg, n, Seen(s.number, path, level), parent.uid)
                   then Run<Fixing>(Step(cfg), ChildWork(n.children, path, level, n.stat), s1) else s1
    ensures Run<Fixing>(Step(cfg), [Enter(n, path, level, parent)], s)
            == StepFix(cfg, s2, Report(Leave(n, path, level, parent))).0
  {
    EnterDeep(cfg, n, path, level, parent, s);
    RunDir<Fixing>(Step(cfg), Enter(n, path, level, parent), s);
  }

  lemma {:induction false} WalkInside(cfg: Config, n: Node, path: Path, level: nat, parent: Stat, s: Fixing)
    returns (s2: Fixing)
    requires level >= 2 && path != [] && n.Dir?
    ensures Made(s, s2, Inside(cfg, n, path, Seen(s.number, path, level), parent.uid), Kept(path, level))
    ensures Seen(s2.number, path, level) == Seen(s.number, path, level)
    ensures Run<Fixing>(Step(cfg), [Enter(n, path, level, parent)], s)
            == StepFix(cfg, s2, Report(Leave(n, path, level, parent))).0
    decreases n, 0
  {
    var expected := Seen(s.number, path, level);
    EnterDeep(cfg, n, path, level, parent, s);
    var s1 := StepFix(cfg, s, Report(Enter(n, path, level, parent))).0;
    var inside := Inside(cfg, n, path, expected, parent.uid);
    if Descends(cfg, n, expected, parent.uid) {
      WalkChildren(cfg, n.children, path, level, n.stat, s1);
      s2 := Run<Fixing>(Step(cfg), ChildWork(n.children, path, level, n.stat), s1);
      MadeHigher(s1, s2, inside, |path| + 1, Kept(path, level));
    } else {
      s2 := s1;
    }
    RunDeepDir(cfg, n, path, level, parent, s, s1, s2);
    MadeTogether(s, s1, s2, map[], inside, Kept(path, level));
    MapPlus(inside);
  }

  lemma MapPlus(fixes: Fixes)
    ensures map[] + fixes == fixes
  {
  }

  lemma {:induction false} WalkDir(cfg: Config, n: Node, path: Path, level: nat, parent: Stat, s: Fixing)
    requires level >= 2 && path != [] && n.Dir?
    ensures Made(s, Run<Fixing>(Step(cfg), [Enter(n, path, level, parent)], s),
                 NodeFixes(cfg, n, path, Seen(s.number, path, level), parent.uid), Kept(path, level))
    decreases n, 1
  {
    var expected := Seen(s.number, path, level);
    var s2 := WalkInside(cfg, n, path, level, parent, s);
    FinishDeep(cfg, n, path, level, parent, s2);
    MadeTogether(s, s2, StepFix(cfg, s2, Report(Leave(n, path, level, parent))).0,
                 Inside(cfg, n, path, expected, parent.uid),
                 OwnFix(cfg, n, path, expected, parent.uid), Kept(path, level));
  }

  lemma {:induction false} WalkChildren(cfg: Config, children: seq<Node>, path: Path, level: nat, parent: Stat,
                                        s: Fixing)
    requires level >= 2
    ensures Made(s, Run<Fixing>(Step(cfg), ChildWork(children, path, level, parent), s),
                 AllFixes(cfg, children, path, NumberOf(s.number, path), parent.uid), |path| + 1)
    decreases children
  {
    if children != [] {
      var c := children[0];
      var expected := NumberOf(s.number, path);
      RunChildren<Fixing>(Step(cfg), children, path, level, parent, s);
      var s1 := WalkFirst(cfg, c, path, level, parent, s);
      WalkChildren(cfg, children[1..], path, level, parent, s1);
      var s2 := Run<Fixing>(Step(cfg), ChildWork(children[1..], path, level, parent), s1);
      MadeTogether(s, s1, s2, NodeFixes(cfg, c, path + [c.name], expected, parent.uid),
                   AllFixes(cfg, children[1..], path, expected, parent.uid), |path| + 1);
    }
  }

  /** An entry of a deep directory sees the number of the directory. */
  lemma SeenBelow(number: map<Path, int>, path: Path, name: string, level: nat)
    requires level >= 2
    ensures Seen(number, path + [name], level + 1) == NumberOf(number, path)
    ensures Kept(path + [name], level + 1) == |path| + 1
  {
    assert ParentOf(path + [name]) == path;
  }

  lemma {:induction false} WalkFirst(cfg: Config, c: Node, path: Path, level: nat, parent: Stat, s: Fixing)
    returns (s1: Fixing)
    requires level >= 2
    ensures s1 == Run<Fixing>(Step(cfg), [Enter(c, path + [c.name], level + 1, parent)], s)
    ensures Made(s, s1, NodeFixes(cfg, c, path + [c.name], NumberOf(s.number, path), parent.uid), |path| + 1)
    ensures NumberOf(s1.number, path) == NumberOf(s.number, path)
    decreases c, 3
  {
    var below := path + [c.name];
    SeenBelow(s.number, path, c.name, level);
    WalkNode(cfg, c, below, level + 1, parent, s);
    s1 := Run<Fixing>(Step(cfg), [Enter(c, below, level + 1, parent)], s);
  }

  // ----- The package directories

  ghost predicate NumbersSet(cfg: Config, package: Node, children: seq<Node>, path: Path, number: map<Path, int>)
    requires package.Dir?
  {
    forall c <- children :: NumberOf(number, path + [c.name]) == ExpectedGid(cfg, package, c)
  }

  lemma {:induction false} NumberingWorks(cfg: Config, package: Node, children: seq<Node>, path: Path,
                                          number: map<Path, int>)
    requires package.Dir? && DistinctAll(children)
    ensures var r := NumberChildren(cfg, package, children, path, number);
            && NumbersSet(cfg, package, children, path, r)
            && SameAbove(number, r, |path| + 1)
            && forall name: string | (forall c <- children :: c.name != name) ::
                 NumberOf(r, path + [name]) == NumberOf(number, path + [name])
  {
    if children != [] {
      var c := children[0];
      var n1 := number[path + [c.name] := ExpectedGid(cfg, package, c)];
      NumberingWorks(cfg, package, children[1..], path, n1);
      var r := NumberChildren(cfg, package, children, path, number);
      forall name: string | name != c.name
        ensures NumberOf(n1, path + [name]) == NumberOf(number, path + [name])
      {
        assert (path + [name])[|path|] != (path + [c.name])[|path|];
      }
      forall d <- children ensures NumberOf(r, path + [d.name]) == ExpectedGid(cfg, package, d) {
        if d !in children[1..] {
          assert d == c;
        }
      }
    }
  }

  lemma {:induction false} WalkPackage(cfg: Config, package: Node, children: seq<Node>, path: Path, s: Fixing)
    requires package.Dir? && NumbersSet(cfg, package, children, path, s.number)
    ensures Made(s, Run<Fixing>(Step(cfg), ChildWork(children, path, 1, package.stat), s),
                 PackageFixes(cfg, package, children, path), |path| + 2)
  {
    if children != [] {
      var c := children[0];
      var below := path + [c.name];
      RunChildren<Fixing>(Step(cfg), children, path, 1, package.stat, s);
      WalkNode(cfg, c, below, 2, package.stat, s);
      var s1 := Run<Fixing>(Step(cfg), [Enter(c, below, 2, package.stat)], s);
      forall d <- children[1..] ensures NumberOf(s1.number, path + [d.name]) == ExpectedGid(cfg, package, d) {
        assert d in children && |path + [d.name]| < |path| + 2;
      }
      WalkPackage(cfg, package, children[1..], path, s1);
      MadeTogether(s, s1, Run<Fixing>(Step(cfg), ChildWork(children[1..], path, 1, package.stat), s1),
                   NodeFixes(cfg, c, below, ExpectedGid(cfg, package, c), package.stat.uid),
                   PackageFixes(cfg, package, children[1..], path), |path| + 2);
    }
  }

  lemma WalkOnePackage(cfg: Config, p: Node, path: Path, parent: Stat, s: Fixing)
    requires DistinctNames(p)
    ensures Made(s, Run<Fixing>(Step(cfg), [Enter(p, path, 1, parent)], s),
                 if p.Dir? then PackageFixes(cfg, p, p.children, path) else map[], 0)
  {
    var w := Enter(p, path, 1, parent);
    if p.Leaf? {
      RunLeaf<Fixing>(Step(cfg), w, s);
    } else {
      RunDir<Fixing>(Step(cfg), w, s);
      NumberingWorks(cfg, p, p.children, path, s.number);
      WalkPackage(cfg, p, p.children, path, StepFix(cfg, s, Report(w)).0);
    }
  }

  lemma {:induction false} WalkPackages(cfg: Config, packages: seq<Node>, path: Path, parent: Stat, s: Fixing)
    requires DistinctAll(packages)
    ensures Made(s, Run<Fixing>(Step(cfg), ChildWork(packages, path, 0, parent), s),
                 PackagesFixes(cfg, packages, path), 0)
  {
    if packages != [] {
      var p := packages[0];
      var below := path + [p.name];
      RunChildren<Fixing>(Step(cfg), packages, path, 0, parent, s);
      WalkOnePackage(cfg, p, below, parent, s);
      var s1 := Run<Fixing>(Step(cfg), [Enter(p, below, 1, parent)], s);
      WalkPackages(cfg, packages[1..], path, parent, s1);
      MadeTogether(s, s1, Run<Fixing>(Step(cfg), ChildWork(packages[1..], path, 0, parent), s1),
                   if p.Dir? then PackageFixes(cfg, p, p.children, below) else map[],
                   PackagesFixes(cfg, packages[1..], path), 0);
    }
  }

  /** Numbering the children of packages and inheriting the numbers below makes exactly these calls. */
  lemma WalkIsTreeFixes(cfg: Config, tree: Node, path: Path, s: Fixing)
    requires DistinctNames(tree)
    ensures Made(s, Run<Fixing>(Step(cfg), [Enter(tree, path, 0, tree.stat)], s), TreeFixes(cfg, tree, path), 0)
  {
    var w := Enter(tree, path, 0, tree.stat);
    if tree.Leaf? {
      RunLeaf<Fixing>(Step(cfg), w, s);
    } else {
      RunDir<Fixing>(Step(cfg), w, s);
      assert StepFix(cfg, s, Report(w)) == (s, false);
      WalkPackages(cfg, tree.children, path, tree.stat, s);
    }
  }

  // ----- All users

  /** The calls made in several data directories. */
  function RootsFixes(cfg: Config, roots: seq<Root>): Fixes {
    if roots == [] then map[] else TreeFixes(cfg, roots[0].0, roots[0].1) + RootsFixes(cfg, roots[1..])
  }

  /** The data directories that are walked: a walk that cannot be opened ends the call. */
  function Walked(users: seq<User>): seq<Root> {
    if users == [] || !users[0].opens then [] else users[0].roots + Walked(users[1..])
  }

  ghost predicate DistinctRoots(roots: seq<Root>) {
    forall r <- roots :: DistinctNames(r.0)
  }

  lemma {:induction false} WalkIsRootsFixes(cfg: Config, roots: seq<Root>, s: Fixing)
    requires DistinctRoots(roots)
    ensures Made(s, Run<Fixing>(Step(cfg), RootWork(roots), s), RootsFixes(cfg, roots), 0)
  {
    if roots != [] {
      var first := Enter(roots[0].0, roots[0].1, 0, roots[0].0.stat);
      var s1 := Run<Fixing>(Step(cfg), [first], s);
      RunSplit<Fixing>(Step(cfg), [first], RootWork(roots[1..]), s);
      WalkIsTreeFixes(cfg, roots[0].0, roots[0].1, s);
      WalkIsRootsFixes(cfg, roots[1..], s1);
      MadeTogether(s, s1, Run<Fixing>(Step(cfg), RootWork(roots[1..]), s1),
                   TreeFixes(cfg, roots[0].0, roots[0].1), RootsFixes(cfg, roots[1..]), 0);
    }
  }

  lemma PlusPlus(a: Fixes, b: Fixes, c: Fixes)
    ensures a + (b + c) == (a + b) + c
  {
  }

  lemma {:induction false} RootsSplit(cfg: Config, a: seq<Root>, b: seq<Root>)
    ensures RootsFixes(cfg, a + b) == RootsFixes(cfg, a) + RootsFixes(cfg, b)
  {
    if a == [] {
      assert a + b == b;
      MapPlus(RootsFixes(cfg, b));
    } else {
      RootsSplit(cfg, a[1..], b);
      assert (a + b)[0] == a[0] && (a + b)[1..] == a[1..] + b;
      PlusPlus(TreeFixes(cfg, a[0].0, a[0].1), RootsFixes(cfg, a[1..]), RootsFixes(cfg, b));
    }
  }

  /**
    Every user in turn: the calls made are those for the directories walked, and
    the call fails exactly when the walk for some user cannot be opened.
  */
  method FixupAppData(users: seq<User>, cfg: Config) returns (ok: bool, fixes: Fixes)
    requires forall u <- users :: DistinctRoots(u.roots)
    ensures ok <==> AllOpen(users)
    ensures fixes == RootsFixes(cfg, Walked(users))
  {
    fixes := map[];
    ghost var end := RootsFixes(cfg, Walked(users));
    MapPlus(end);
    for n := 0 to |users|
      invariant forall i :: 0 <= i < n ==> users[i].opens
      invariant fixes + RootsFixes(cfg, Walked(users[n..])) == end
    {
      NextUser(cfg, users, n, fixes);
      if !users[n].opens {
        return false, fixes;
      }
      fixes := FixupUser(users[n].roots, cfg, fixes);
    }
    ok := true;
  }

  /** The calls still to be made, with one more user's made. */
  lemma NextUser(cfg: Config, users: seq<User>, n: nat, fixes: Fixes)
    requires n < |users|
    ensures users[n].opens ==>
              fixes + RootsFixes(cfg, Walked(users[n..]))
              == (fixes + RootsFixes(cfg, users[n].roots)) + RootsFixes(cfg, Walked(users[n + 1..]))
    ensures !users[n].opens ==> fixes + RootsFixes(cfg, Walked(users[n..])) == fixes
  {
    assert users[n..][0] == users[n] && users[n..][1..] == users[n + 1..];
    if users[n].opens {
      var own, rest := RootsFixes(cfg, users[n].roots), RootsFixes(cfg, Walked(users[n + 1..]));
      RootsSplit(cfg, users[n].roots, Walked(users[n + 1..]));
      PlusPlus(fixes, own, rest);
    } else {
      PlusNothing(fixes);
    }
  }

  lemma PlusNothing(fixes: Fixes)
    ensures fixes + map[] == fixes
  {
  }

  /** The walk over one user's data directories. */
  method FixupUser(roots: seq<Root>, cfg: Config, before: Fixes) returns (fixes: Fixes)
    requires DistinctRoots(roots)
    ensures fixes == before + RootsFixes(cfg, roots)
  {
    ghost var end := before + RootsFixes(cfg, roots);
    WalkIsRootsFixes(cfg, roots, Fixing(map[], before));
    var number: map<Path, int> := map[];
    fixes := before;
    var fts := new Walk.Of(roots);
    var next := fts.Read();
    while next.Some?
      invariant fresh(fts) && fts.started && !fts.skip
      invariant next == if fts.work == [] then None else Some(Report(fts.work[0]))
      invariant Run<Fixing>(Step(cfg), fts.work, Fixing(number, fixes)).fixes == end
      decreases Pending(fts.work)
    {
      ghost var before := Fixing(number, fixes);
      number, fixes := FixEntry(fts, next.value, cfg, number, fixes);
      RunStep<Fixing>(Step(cfg), fts.work, before, Fixing(number, fixes), fts.skip);
      next := fts.Read();
    }
  }

  /** The loop body: one report of the walk. */
  method FixEntry(fts: Walk, p: Entry, cfg: Config, number0: map<Path, int>, fixes0: Fixes)
    returns (number: map<Path, int>, fixes: Fixes)
    requires !fts.skip
    modifies fts`skip
    ensures StepFix(cfg, Fixing(number0, fixes0), p) == (Fixing(number, fixes), fts.skip)
  {
    number, fixes := number0, fixes0;
    if p.info == FTS_D && p.level == 1 && p.node.Dir? {
      number := SetNumbers(cfg, p.node, p.path, number);
    } else if p.level >= 2 {
      if p.level > 2 && p.path != [] {
        number := number[p.path := NumberOf(number, ParentOf(p.path))];
      }
      var uid := p.parent.uid;
      var cacheGid := cfg.cacheGid(uid);
      var expected := NumberOf(number, p.path);
      var actual := p.node.stat.gid;
      if actual == expected {
        if !cfg.force {
          fts.Skip();
        }
      } else if actual == uid || actual == cacheGid {
        match p.info {
          case FTS_DP =>
            fixes := fixes[p.path := Fix(expected, expected == cacheGid)];
          case FTS_F =>
            fixes := fixes[p.path := Fix(expected, false)];
          case FTS_SL =>
            fixes := fixes[p.path := Fix(expected, false)];
          case _ =>
        }
      } else {
        if !cfg.force {
          fts.Skip();
        }
      }
    }
  }

  /** The loop over fts_children of a package directory. */
  method SetNumbers(cfg: Config, package: Node, path: Path, number: map<Path, int>) returns (r: map<Path, int>)
    requires package.Dir?
    ensures r == NumberChildren(cfg, package, package.children, path, number)
  {
    r := number;
    var child := package.children;
    while child != []
      invariant NumberChildren(cfg, package, child, path, r)
                == NumberChildren(cfg, package, package.children, path, number)
    {
      r := r[path + [child[0].name] := ExpectedGid(cfg, package, child[0])];
      child := child[1..];
    }
  }

  // ----- The tree the calls leave behind

  /** The tree at `path` once the calls of `fixes` were made. */
  function After(fixes: Fixes, n: Node, path: Path): (r: Node)
    decreases n
  {
    var gid := if path in fixes then fixes[path].gid else n.stat.gid;
    match n
    case Leaf(name, kind, stat) => Leaf(name, kind, stat.(gid := gid))
    case Dir(name, stat, xattrs, children) => Dir(name, stat.(gid := gid), xattrs, AfterAll(fixes, children, path))
  }

  function AfterAll(fixes: Fixes, children: seq<Node>, path: Path): (r: seq<Node>)
    ensures |r| == |children|
    decreases children
  {
    if children == [] then []
    else [After(fixes, children[0], path + [children[0].name])] + AfterAll(fixes, children[1..], path)
  }

  /** The same tree by recursion, without paths. */
  function FixNode(cfg: Config, n: Node, expected: int, uid: int): (r: Node)
    decreases n
  {
    var gid := if Fixable(n) && Misplaced(cfg, n.stat.gid, expected, uid) then expected else n.stat.gid;
    match n
    case Leaf(name, kind, stat) => Leaf(name, kind, stat.(gid := gid))
    case Dir(name, stat, xattrs, children) =>
      Dir(name, stat.(gid := gid), xattrs,
          if Descends(cfg, n, expected, uid) then FixAll(cfg, children, expected, stat.uid) else children)
  }

  function FixAll(cfg: Config, children: seq<Node>, expected: int, uid: int): (r: seq<Node>)
    decreases children
  {
    if children == [] then []
    else [FixNode(cfg, children[0], expected, uid)] + FixAll(cfg, children[1..], expected, uid)
  }

  function FixPackage(cfg: Config, package: Node, children: seq<Node>): seq<Node>
    requires package.Dir?
  {
    if children == [] then []
    else [FixNode(cfg, children[0], ExpectedGid(cfg, package, children[0]), package.stat.uid)]
         + FixPackage(cfg, package, children[1..])
  }

  function FixPackages(cfg: Config, packages: seq<Node>): seq<Node> {
    if packages == [] then []
    else
      var p := packages[0];
      [if p.Dir? then p.(children := FixPackage(cfg, p, p.children)) else p] + FixPackages(cfg, packages[1..])
  }

  function FixTree(cfg: Config, tree: Node): Node {
    if tree.Dir? then tree.(children := FixPackages(cfg, tree.children)) else tree
  }

  // ----- Paths of different subtrees do not meet

  ghost predicate KeysBelow(fixes: Fixes, path: Path) {
    forall q <- fixes :: path <= q
  }

  /** Every call was made strictly below `path`, through one of these children. */
  ghost predicate KeysThrough(fixes: Fixes, path: Path, children: seq<Node>) {
    forall q <- fixes :: |q| > |path| && path <= q && exists c <- children :: c.name == q[|path|]
  }

  lemma {:induction false} NodeKeys(cfg: Config, n: Node, path: Path, expected: int, uid: int)
    ensures KeysBelow(NodeFixes(cfg, n, path, expected, uid), path)
    ensures n.Dir? ==> KeysThrough(Inside(cfg, n, path, expected, uid), path, n.children)
    decreases n
  {
    if n.Dir? {
      AllKeys(cfg, n.children, path, expected, n.stat.uid);
    }
  }

  lemma BelowIsThrough(fixes: Fixes, path: Path, children: seq<Node>, c: Node)
    requires c in children && KeysBelow(fixes, path + [c.name])
    ensures KeysThrough(fixes, path, children)
  {
    forall q <- fixes ensures |q| > |path| && path <= q && q[|path|] == c.name {
      assert q[|path|] == (path + [c.name])[|path|];
      assert q[..|path|] == (path + [c.name])[..|path|] == path;
    }
  }

  lemma ThroughMore(a: Fixes, b: Fixes, path: Path, children: seq<Node>)
    requires children != []
    requires KeysThrough(a, path, children) && KeysThrough(b, path, children[1..])
    ensures KeysThrough(a + b, path, children)
  {
    forall q <- b ensures exists c <- children :: c.name == q[|path|] {
      var c :| c in children[1..] && c.name == q[|path|];
      assert c in children;
    }
  }

  lemma {:induction false} AllKeys(cfg: Config, children: seq<Node>, path: Path, expected: int, uid: int)
    ensures KeysThrough(AllFixes(cfg, children, path, expected, uid), path, children)
    decreases children
  {
    if children != [] {
      var c := children[0];
      var first := NodeFixes(cfg, c, path + [c.name], expected, uid);
      NodeKeys(cfg, c, path + [c.name], expected, uid);
      BelowIsThrough(first, path, children, c);
      AllKeys(cfg, children[1..], path, expected, uid);
      ThroughMore(first, AllFixes(cfg, children[1..], path, expected, uid), path, children);
    }
  }

  lemma {:induction false} PackageKeys(cfg: Config, package: Node, children: seq<Node>, path: Path)
    requires package.Dir?
    ensures KeysThrough(PackageFixes(cfg, package, children, path), path, children)
  {
    if children != [] {
      var c := children[0];
      var expected := ExpectedGid(cfg, package, c);
      var first := NodeFixes(cfg, c, path + [c.name], expected, package.stat.uid);
      NodeKeys(cfg, c, path + [c.name], expected, package.stat.uid);
      BelowIsThrough(first, path, children, c);
      PackageKeys(cfg, package, children[1..], path);
      ThroughMore(first, PackageFixes(cfg, package, children[1..], path), path, children);
    }
  }

  /** Both make the same calls at and below `path`. */
  ghost predicate AgreeBelow(f: Fixes, g: Fixes, path: Path) {
    forall q: Path | path <= q :: (q in f <==> q in g) && (q in f ==> f[q] == g[q])
  }

  ghost predicate AgreeThrough(f: Fixes, g: Fixes, path: Path, children: seq<Node>) {
    forall c <- children :: AgreeBelow(f, g, path + [c.name])
  }

  lemma {:induction false} AfterAgrees(f: Fixes, g: Fixes, n: Node, path: Path)
    requires AgreeBelow(f, g, path)
    ensures After(f, n, path) == After(g, n, path)
    decreases n
  {
    if n.Dir? {
      forall c <- n.children ensures AgreeBelow(f, g, path + [c.name]) {
        AgreesDeeper(f, g, path, c.name);
      }
      AfterAllAgrees(f, g, n.children, path);
    }
  }

  lemma AgreesDeeper(f: Fixes, g: Fixes, path: Path, name: string)
    requires AgreeBelow(f, g, path)
    ensures AgreeBelow(f, g, path + [name])
  {
    forall q: Path | path + [name] <= q
      ensures (q in f <==> q in g) && (q in f ==> f[q] == g[q])
    {
      assert q[..|path|] == (path + [name])[..|path|] == path;
    }
  }

  lemma {:induction false} AfterAllAgrees(f: Fixes, g: Fixes, children: seq<Node>, path: Path)
    requires AgreeThrough(f, g, path, children)
    ensures AfterAll(f, children, path) == AfterAll(g, children, path)
    decreases children
  {
    if children != [] {
      AfterAgrees(f, g, children[0], path + [children[0].name]);
      AfterAllAgrees(f, g, children[1..], path);
    }
  }

  /** Calls made through one child and through its later siblings do not interfere. */
  lemma SiblingsApart(a: Fixes, b: Fixes, path: Path, children: seq<Node>)
    requires children != [] && DistinctAll(children)
    requires KeysBelow(a, path + [children[0].name]) && KeysThrough(b, path, children[1..])
    ensures AgreeBelow(a + b, a, path + [children[0].name])
    ensures AgreeThrough(a + b, b, path, children[1..])
  {
    var first := path + [children[0].name];
    forall q <- b ensures !(first <= q) {
      var c :| c in children[1..] && c.name == q[|path|];
      assert first[|path|] == children[0].name;
    }
    forall c <- children[1..] ensures AgreeBelow(a + b, b, path + [c.name]) {
      forall q <- a ensures !(path + [c.name] <= q) {
        assert q[|path|] == first[|path|];
        assert (path + [c.name])[|path|] == c.name;
      }
    }
  }

  // ----- After the calls the tree is the fixed tree

  lemma NothingMade(n: Node, path: Path)
    ensures After(map[], n, path) == n
    decreases n
  {
    if n.Dir? {
      NothingMadeAll(n.children, path);
    }
  }

  lemma {:induction false} NothingMadeAll(children: seq<Node>, path: Path)
    ensures AfterAll(map[], children, path) == children
    decreases children
  {
    if children != [] {
      NothingMade(children[0], path + [children[0].name]);
      NothingMadeAll(children[1..], path);
    }
  }

  lemma {:induction false} AfterNode(cfg: Config, n: Node, path: Path, expected: int, uid: int)
    requires DistinctNames(n)
    ensures After(NodeFixes(cfg, n, path, expected, uid), n, path) == FixNode(cfg, n, expected, uid)
    decreases n
  {
    NodeKeys(cfg, n, path, expected, uid);
    if n.Dir? {
      var inside := Inside(cfg, n, path, expected, uid);
      OwnCallIsOutside(inside, OwnFix(cfg, n, path, expected, uid), path, n.children);
      AfterAllAgrees(NodeFixes(cfg, n, path, expected, uid), inside, n.children, path);
      if Descends(cfg, n, expected, uid) {
        AfterChildren(cfg, n.children, path, expected, n.stat.uid);
      } else {
        NothingMadeAll(n.children, path);
      }
    }
  }

  lemma OwnCallIsOutside(inside: Fixes, own: Fixes, path: Path, children: seq<Node>)
    requires own.Keys <= {path} && KeysThrough(inside, path, children)
    ensures AgreeThrough(inside + own, inside, path, children)
    ensures path in inside + own <==> path in own
  {
  }

  lemma {:induction false} AfterChildren(cfg: Config, children: seq<Node>, path: Path, expected: int, uid: int)
    requires DistinctAll(children)
    ensures AfterAll(AllFixes(cfg, children, path, expected, uid), children, path)
            == FixAll(cfg, children, expected, uid)
    decreases children
  {
    if children != [] {
      var c := children[0];
      var below := path + [c.name];
      var first := NodeFixes(cfg, c, below, expected, uid);
      var rest := AllFixes(cfg, children[1..], path, expected, uid);
      NodeKeys(cfg, c, below, expected, uid);
      AllKeys(cfg, children[1..], path, expected, uid);
      AfterFirst(first, rest, children, path);
      AfterNode(cfg, c, below, expected, uid);
      AfterChildren(cfg, children[1..], path, expected, uid);
    }
  }

  lemma AfterFirst(first: Fixes, rest: Fixes, children: seq<Node>, path: Path)
    requires children != [] && DistinctAll(children)
    requires KeysBelow(first, path + [children[0].name]) && KeysThrough(rest, path, children[1..])
    ensures AfterAll(first + rest, children, path)
            == [After(first, children[0], path + [children[0].name])] + AfterAll(rest, children[1..], path)
  {
    SiblingsApart(first, rest, path, children);
    AfterAgrees(first + rest, first, children[0], path + [children[0].name]);
    AfterAllAgrees(first + rest, rest, children[1..], path);
  }

  lemma {:induction false} AfterPackage(cfg: Config, package: Node, children: seq<Node>, path: Path)
    requires package.Dir? && DistinctAll(children)
    ensures AfterAll(PackageFixes(cfg, package, children, path), children, path) == FixPackage(cfg, package, children)
  {
    if children != [] {
      var c := children[0];
      var below := path + [c.name];
      var expected := ExpectedGid(cfg, package, c);
      NodeKeys(cfg, c, below, expected, package.stat.uid);
      PackageKeys(cfg, package, children[1..], path);
      AfterFirst(NodeFixes(cfg, c, below, expected, package.stat.uid),
                 PackageFixes(cfg, package, children[1..], path), children, path);
      AfterNode(cfg, c, below, expected, package.stat.uid);
      AfterPackage(cfg, package, children[1..], path);
    }
  }

  function OnePackage(cfg: Config, p: Node, path: Path): Fixes {
    if p.Dir? then PackageFixes(cfg, p, p.children, path) else map[]
  }

  lemma OnePackageKeys(cfg: Config, p: Node, path: Path)
    ensures KeysBelow(OnePackage(cfg, p, path), path) && path !in OnePackage(cfg, p, path)
  {
    if p.Dir? {
      PackageKeys(cfg, p, p.children, path);
    }
  }

  lemma {:induction false} PackagesKeys(cfg: Config, packages: seq<Node>, path: Path)
    ensures KeysThrough(PackagesFixes(cfg, packages, path), path, packages)
  {
    if packages != [] {
      var p := packages[0];
      var first := OnePackage(cfg, p, path + [p.name]);
      OnePackageKeys(cfg, p, path + [p.name]);
      BelowIsThrough(first, path, packages, p);
      PackagesKeys(cfg, packages[1..], path);
      ThroughMore(first, PackagesFixes(cfg, packages[1..], path), path, packages);
    }
  }

  lemma AfterOnePackage(cfg: Config, p: Node, path: Path)
    requires DistinctNames(p)
    ensures After(OnePackage(cfg, p, path), p, path)
            == if p.Dir? then p.(children := FixPackage(cfg, p, p.children)) else p
  {
    OnePackageKeys(cfg, p, path);
    if p.Dir? {
      AfterPackage(cfg, p, p.children, path);
    }
  }

  lemma {:induction false} AfterPackages(cfg: Config, packages: seq<Node>, path: Path)
    requires DistinctAll(packages)
    ensures AfterAll(PackagesFixes(cfg, packages, path), packages, path) == FixPackages(cfg, packages)
  {
    if packages != [] {
      var p := packages[0];
      OnePackageKeys(cfg, p, path + [p.name]);
      PackagesKeys(cfg, packages[1..], path);
      AfterFirst(OnePackage(cfg, p, path + [p.name]), PackagesFixes(cfg, packages[1..], path), packages, path);
      AfterOnePackage(cfg, p, path + [p.name]);
      AfterPackages(cfg, packages[1..], path);
    }
  }

  /** The calls of one walk turn the tree into FixTree of it. */
  lemma CallsFixTheTree(cfg: Config, tree: Node, path: Path)
    requires DistinctNames(tree)
    ensures After(TreeFixes(cfg, tree, path), tree, path) == FixTree(cfg, tree)
  {
    if tree.Dir? {
      PackagesKeys(cfg, tree.children, path);
      AfterPackages(cfg, tree.children, path);
    }
  }

  // ----- A second pass

  lemma {:induction false} AgainNode(f1: Config, f2: Config, n: Node, path: Path, expected: int, uid: int)
    requires f1.cacheGid == f2.cacheGid && (f1.force || !f2.force)
    ensures NodeFixes(f2, FixNode(f1, n, expected, uid), path, expected, uid) == map[]
    decreases n
  {
    if n.Dir? && f2.force {
      AgainAll(f1, f2, n.children, path, expected, n.stat.uid);
    }
  }

  lemma {:induction false} AgainAll(f1: Config, f2: Config, children: seq<Node>, path: Path, expected: int, uid: int)
    requires f1.cacheGid == f2.cacheGid && (f1.force || !f2.force)
    ensures AllFixes(f2, FixAll(f1, children, expected, uid), path, expected, uid) == map[]
    decreases children
  {
    if children != [] {
      AgainNode(f1, f2, children[0], path + [children[0].name], expected, uid);
      AgainAll(f1, f2, children[1..], path, expected, uid);
    }
  }

  lemma {:induction false} AgainPackage(f1: Config, f2: Config, package: Node, fixed: Node, children: seq<Node>,
                                        path: Path)
    requires f1.cacheGid == f2.cacheGid && (f1.force || !f2.force)
    requires package.Dir? && fixed.Dir? && fixed.stat == package.stat && fixed.xattrs == package.xattrs
    ensures PackageFixes(f2, fixed, FixPackage(f1, package, children), path) == map[]
  {
    if children != [] {
      var c := children[0];
      AgainNode(f1, f2, c, path + [c.name], ExpectedGid(f1, package, c), package.stat.uid);
      AgainPackage(f1, f2, package, fixed, children[1..], path);
    }
  }

  lemma {:induction false} AgainPackages(f1: Config, f2: Config, packages: seq<Node>, path: Path)
    requires f1.cacheGid == f2.cacheGid && (f1.force || !f2.force)
    ensures PackagesFixes(f2, FixPackages(f1, packages), path) == map[]
  {
    if packages != [] {
      var p := packages[0];
      if p.Dir? {
        AgainPackage(f1, f2, p, FixPackages(f1, packages)[0], p.children, path + [p.name]);
      }
      AgainPackages(f1, f2, packages[1..], path);
    }
  }

  // ----- A forced walk after an unforced one

  /** The entry, or something in it, can be fixed and has the wrong group. */
  ghost predicate HasWork(cfg: Config, n: Node, expected: int, uid: int)
    decreases n
  {
    || (Fixable(n) && Misplaced(cfg, n.stat.gid, expected, uid))
    || (n.Dir? && exists c <- n.children :: HasWork(cfg, c, expected, n.stat.uid))
  }

  /** Below a directory that an unforced walk does not enter, something can be fixed and has the wrong group. */
  ghost predicate HidesWork(cfg: Config, n: Node, expected: int, uid: int)
    decreases n
  {
    && n.Dir?
    && if Misplaced(cfg, n.stat.gid, expected, uid)
       then exists c <- n.children :: HidesWork(cfg, c, expected, n.stat.uid)
       else exists c <- n.children :: HasWork(cfg, c, expected, n.stat.uid)
  }

  ghost predicate TreeHidesWork(cfg: Config, tree: Node) {
    tree.Dir? && exists p <- tree.children :: PackageHidesWork(cfg, p)
  }

  ghost predicate PackageHidesWork(cfg: Config, p: Node) {
    p.Dir? && exists c <- p.children :: HidesWork(cfg, c, ExpectedGid(cfg, p, c), p.stat.uid)
  }

  lemma NothingInSum(a: Fixes, b: Fixes)
    ensures a + b == map[] <==> a == map[] && b == map[]
  {
    if a + b == map[] {
      assert forall q <- a :: q in a + b;
      assert forall q <- b :: q in a + b;
    }
  }

  /** A forced walk makes a call exactly when there is work. */
  lemma {:induction false} ForcedFindsWork(cfg: Config, n: Node, path: Path, expected: int, uid: int)
    requires cfg.force
    ensures NodeFixes(cfg, n, path, expected, uid) == map[] <==> !HasWork(cfg, n, expected, uid)
    decreases n
  {
    var own := OwnFix(cfg, n, path, expected, uid);
    assert path in own <==> Fixable(n) && Misplaced(cfg, n.stat.gid, expected, uid);
    NothingInSum(Inside(cfg, n, path, expected, uid), own);
    if n.Dir? {
      ForcedFindsAllWork(cfg, n.children, path, expected, n.stat.uid);
    }
  }

  lemma {:induction false} ForcedFindsAllWork(cfg: Config, children: seq<Node>, path: Path, expected: int, uid: int)
    requires cfg.force
    ensures AllFixes(cfg, children, path, expected, uid) == map[]
            <==> !exists c <- children :: HasWork(cfg, c, expected, uid)
    decreases children
  {
    if children != [] {
      var c, rest := children[0], children[1..];
      ForcedFindsWork(cfg, c, path + [c.name], expected, uid);
      ForcedFindsAllWork(cfg, rest, path, expected, uid);
      NothingInSum(NodeFixes(cfg, c, path + [c.name], expected, uid), AllFixes(cfg, rest, path, expected, uid));
      assert forall d :: d in children <==> d == c || d in rest;
    }
  }

  /** Of one file system: an unforced configuration and the forced one. */
  ghost predicate LazyThenForced(f1: Config, f2: Config) {
    f1.cacheGid == f2.cacheGid && !f1.force && f2.force
  }

  lemma {:induction false} HiddenInNode(f1: Config, f2: Config, n: Node, path: Path, expected: int, uid: int)
    requires LazyThenForced(f1, f2)
    ensures NodeFixes(f2, FixNode(f1, n, expected, uid), path, expected, uid) == map[]
            <==> !HidesWork(f1, n, expected, uid)
    decreases n
  {
    var fixed := FixNode(f1, n, expected, uid);
    assert OwnFix(f2, fixed, path, expected, uid) == map[];
    NothingInSum(Inside(f2, fixed, path, expected, uid), map[]);
    if n.Dir? {
      if Misplaced(f1, n.stat.gid, expected, uid) {
        HiddenInAll(f1, f2, n.children, path, expected, n.stat.uid);
      } else {
        ForcedFindsAllWork(f2, n.children, path, expected, n.stat.uid);
        SameWork(f1, f2, n.children, expected, n.stat.uid);
      }
    }
  }

  lemma {:induction false} SameWork(f1: Config, f2: Config, children: seq<Node>, expected: int, uid: int)
    requires f1.cacheGid == f2.cacheGid
    ensures forall c <- children :: HasWork(f1, c, expected, uid) <==> HasWork(f2, c, expected, uid)
    decreases children
  {
    forall c <- children ensures HasWork(f1, c, expected, uid) <==> HasWork(f2, c, expected, uid) {
      if c.Dir? {
        SameWork(f1, f2, c.children, expected, c.stat.uid);
      }
    }
  }

  lemma {:induction false} HiddenInAll(f1: Config, f2: Config, children: seq<Node>, path: Path, expected: int, uid: int)
    requires LazyThenForced(f1, f2)
    ensures AllFixes(f2, FixAll(f1, children, expected, uid), path, expected, uid) == map[]
            <==> !exists c <- children :: HidesWork(f1, c, expected, uid)
    decreases children
  {
    if children != [] {
      var c, rest := children[0], children[1..];
      var fixed := FixNode(f1, c, expected, uid);
      HiddenInNode(f1, f2, c, path + [c.name], expected, uid);
      HiddenInAll(f1, f2, rest, path, expected, uid);
      NothingInSum(NodeFixes(f2, fixed, path + [c.name], expected, uid),
                   AllFixes(f2, FixAll(f1, rest, expected, uid), path, expected, uid));
      assert forall d :: d in children <==> d == c || d in rest;
    }
  }

  lemma {:induction false} HiddenInPackage(f1: Config, f2: Config, package: Node, fixed: Node, children: seq<Node>,
                                           path: Path)
    requires LazyThenForced(f1, f2)
    requires package.Dir? && fixed.Dir? && fixed.stat == package.stat && fixed.xattrs == package.xattrs
    ensures PackageFixes(f2, fixed, FixPackage(f1, package, children), path) == map[]
            <==> !exists c <- children :: HidesWork(f1, c, ExpectedGid(f1, package, c), package.stat.uid)
  {
    if children != [] {
      var c, rest := children[0], children[1..];
      var expected, uid := ExpectedGid(f1, package, c), package.stat.uid;
      HiddenInNode(f1, f2, c, path + [c.name], expected, uid);
      HiddenInPackage(f1, f2, package, fixed, rest, path);
      NothingInSum(NodeFixes(f2, FixNode(f1, c, expected, uid), path + [c.name], expected, uid),
                   PackageFixes(f2, fixed, FixPackage(f1, package, rest), path));
      assert forall d :: d in children <==> d == c || d in rest;
    }
  }

  lemma {:induction false} HiddenInPackages(f1: Config, f2: Config, packages: seq<Node>, path: Path)
    requires LazyThenForced(f1, f2)
    ensures PackagesFixes(f2, FixPackages(f1, packages), path) == map[]
            <==> !exists p <- packages :: PackageHidesWork(f1, p)
  {
    if packages != [] {
      var p, rest := packages[0], packages[1..];
      var fixed := FixPackages(f1, packages)[0];
      if p.Dir? {
        HiddenInPackage(f1, f2, p, fixed, p.children, path + [p.name]);
      }
      HiddenInPackages(f1, f2, rest, path);
      assert OnePackage(f2, fixed, path + [p.name]) == map[] <==> !PackageHidesWork(f1, p);
      assert FixPackages(f1, packages)[1..] == FixPackages(f1, rest);
      NothingInSum(OnePackage(f2, fixed, path + [p.name]), PackagesFixes(f2, FixPackages(f1, rest), path));
      assert forall d :: d in packages <==> d == p || d in rest;
    }
  }

  lemma SecondNeeds(f1: Config, f2: Config, tree: Node, path: Path)
    requires f1.cacheGid == f2.cacheGid
    ensures TreeFixes(f2, FixTree(f1, tree), path) == map[] <==> f1.force || !f2.force || !TreeHidesWork(f1, tree)
  {
    if tree.Dir? {
      if f1.force || !f2.force {
        AgainPackages(f1, f2, tree.children, path);
      } else {
        HiddenInPackages(f1, f2, tree.children, path);
      }
    }
  }

  /**
    Exactly when a second walk makes no call at all, with FORCE or without it in
    either walk: unless only the second walk is forced and there is, below a
    directory that the first one did not enter, an entry that can be fixed and
    has the wrong group.
  */
  lemma SecondPassMakesNoCalls(f1: Config, f2: Config, tree: Node, path: Path)
    requires DistinctNames(tree) && f1.cacheGid == f2.cacheGid
    ensures TreeFixes(f2, After(TreeFixes(f1, tree, path), tree, path), path) == map[]
            <==> f1.force || !f2.force || !TreeHidesWork(f1, tree)
  {
    CallsFixTheTree(f1, tree, path);
    SecondNeeds(f1, f2, tree, path);
  }

  // ----- Several data directories

  /** No data directory lies in another one. */
  ghost predicate RootsApart(roots: seq<Root>) {
    forall i, j :: 0 <= i < j < |roots| ==> !(roots[i].1 <= roots[j].1) && !(roots[j].1 <= roots[i].1)
  }

  lemma TreeKeys(cfg: Config, tree: Node, path: Path)
    ensures KeysBelow(TreeFixes(cfg, tree, path), path)
  {
    if tree.Dir? {
      PackagesKeys(cfg, tree.children, path);
    }
  }

  lemma {:induction false} RootsKeys(cfg: Config, roots: seq<Root>)
    ensures forall q <- RootsFixes(cfg, roots) :: exists i :: 0 <= i < |roots| && roots[i].1 <= q
  {
    if roots != [] {
      TreeKeys(cfg, roots[0].0, roots[0].1);
      RootsKeys(cfg, roots[1..]);
      forall q <- RootsFixes(cfg, roots[1..]) ensures exists i :: 0 <= i < |roots| && roots[i].1 <= q {
        var i :| 0 <= i < |roots[1..]| && roots[1..][i].1 <= q;
        assert roots[i + 1].1 <= q;
      }
    }
  }

  /** The calls made in all directories together turn each of them into FixTree of it. */
  lemma {:induction false} CallsFixTheRoots(cfg: Config, roots: seq<Root>, i: nat)
    requires DistinctRoots(roots) && RootsApart(roots) && i < |roots|
    ensures After(RootsFixes(cfg, roots), roots[i].0, roots[i].1) == FixTree(cfg, roots[i].0)
    decreases |roots|
  {
    var first, rest, path := roots[0], roots[1..], roots[i].1;
    var all, own, others := RootsFixes(cfg, roots), TreeFixes(cfg, first.0, first.1), RootsFixes(cfg, rest);
    if i == 0 {
      RootsKeys(cfg, rest);
      forall q | path <= q ensures q !in others {
        if q in others {
          var k :| 0 <= k < |rest| && rest[k].1 <= q;
          Comparable(path, roots[k + 1].1, q);
        }
      }
      AfterAgrees(all, own, first.0, path);
      CallsFixTheTree(cfg, first.0, path);
    } else {
      TreeKeys(cfg, first.0, first.1);
      forall q | path <= q ensures q !in own {
        if q in own {
          Comparable(first.1, path, q);
        }
      }
      AfterAgrees(all, others, roots[i].0, path);
      CallsFixTheRoots(cfg, rest, i - 1);
    }
  }

  /** The directories once the calls of `fixes` were made. */
  function AfterRoots(fixes: Fixes, roots: seq<Root>): seq<Root> {
    if roots == [] then []
    else [(After(fixes, roots[0].0, roots[0].1), roots[0].1)] + AfterRoots(fixes, roots[1..])
  }

  /** Nowhere is work hidden from an unforced walk. */
  ghost predicate NoHiddenWork(cfg: Config, roots: seq<Root>) {
    forall r <- roots :: !TreeHidesWork(cfg, r.0)
  }

  lemma {:induction false} SecondCallNeeds(f1: Config, f2: Config, fixes: Fixes, roots: seq<Root>)
    requires f1.cacheGid == f2.cacheGid
    requires forall i :: 0 <= i < |roots| ==> After(fixes, roots[i].0, roots[i].1) == FixTree(f1, roots[i].0)
    ensures RootsFixes(f2, AfterRoots(fixes, roots)) == map[] <==> f1.force || !f2.force || NoHiddenWork(f1, roots)
  {
    if roots != [] {
      var (tree, path) := roots[0];
      SecondNeeds(f1, f2, tree, path);
      assert After(fixes, tree, path) == FixTree(f1, tree);
      forall i | 0 <= i < |roots[1..]|
        ensures After(fixes, roots[1..][i].0, roots[1..][i].1) == FixTree(f1, roots[1..][i].0)
      {
        assert roots[1..][i] == roots[i + 1];
      }
      SecondCallNeeds(f1, f2, fixes, roots[1..]);
      NothingInSum(TreeFixes(f2, FixTree(f1, tree), path), RootsFixes(f2, AfterRoots(fixes, roots[1..])));
      assert AfterRoots(fixes, roots)[1..] == AfterRoots(fixes, roots[1..]);
      assert forall r :: r in roots <==> r == roots[0] || r in roots[1..];
    }
  }

  /** The same for all directories of all users: exactly when a second call of `fixupAppData` changes nothing. */
  lemma SecondCallMakesNoCalls(f1: Config, f2: Config, roots: seq<Root>)
    requires DistinctRoots(roots) && RootsApart(roots) && f1.cacheGid == f2.cacheGid
    ensures RootsFixes(f2, AfterRoots(RootsFixes(f1, roots), roots)) == map[]
            <==> f1.force || !f2.force || NoHiddenWork(f1, roots)
  {
    forall i | 0 <= i < |roots|
      ensures After(RootsFixes(f1, roots), roots[i].0, roots[i].1) == FixTree(f1, roots[i].0)
    {
      CallsFixTheRoots(f1, roots, i);
    }
    SecondCallNeeds(f1, f2, RootsFixes(f1, roots), roots);
  }

  /** A tree that hides work: a forced walk makes a call that an unforced one left out. */
  lemma ForcedAfterUnforced(cacheGid: int -> int)
    requires cacheGid(10001) == 20001
    ensures var file := Leaf("f", Regular, Stat(4, 10001, 20001, 1, 0));
            var files := Dir("files", Stat(3, 10001, 10001, 1, 0), Xattrs(false, false, 0, 0), [file]);
            var app := Dir("app", Stat(2, 10001, 10001, 1, 0), Xattrs(false, false, 0, 0), [files]);
            var tree := Dir("user", Stat(1, 1000, 1000, 1, 0), Xattrs(false, false, 0, 0), [app]);
            && TreeFixes(Config(false, cacheGid), tree, []) == map[]
            && ["app", "files", "f"] in TreeFixes(Config(true, cacheGid), tree, [])
  {
    var forced, lazy := Config(true, cacheGid), Config(false, cacheGid);
    var file := Leaf("f", Regular, Stat(4, 10001, 20001, 1, 0));
    var files := Dir("files", Stat(3, 10001, 10001, 1, 0), Xattrs(false, false, 0, 0), [file]);
    var app := Dir("app", Stat(2, 10001, 10001, 1, 0), Xattrs(false, false, 0, 0), [files]);
    assert [] + ["app"] == ["app"] && ["app"] + ["files"] == ["app", "files"];
    assert ["app", "files"] + ["f"] == ["app", "files", "f"];
    assert ["app", "files", "f"] in NodeFixes(forced, file, ["app", "files", "f"], 10001, 10001);
    assert ["app", "files", "f"] in AllFixes(forced, [file], ["app", "files"], 10001, 10001);
    assert ["app", "files", "f"] in NodeFixes(forced, files, ["app", "files"], 10001, 10001);
    assert PackageFixes(forced, app, [files], ["app"])
           == NodeFixes(forced, files, ["app", "files"], 10001, 10001) + map[];
    assert NodeFixes(lazy, files, ["app", "files"], 10001, 10001) == map[];
    assert PackageFixes(lazy, app, [files], ["app"]) == map[] by {
      assert ExpectedGid(lazy, app, files) == 10001;
    }
    assert forall cfg :: PackagesFixes(cfg, [app], []) == PackageFixes(cfg, app, [files], ["app"]) + map[];
  }

  // ----- Who is fixed, entry by entry

  /** The node a relative path leads to. */
  function NodeAt(n: Node, q: Path): (r: Option<Node>)
    decreases |q|, n
  {
    if q == [] then Some(n)
    else if n.Dir? then ChildAt(n.children, q)
    else None
  }

  function ChildAt(children: seq<Node>, q: Path): Option<Node>
    requires q != []
    decreases |q|, children
  {
    if children == [] then None
    else if children[0].name == q[0] then NodeAt(children[0], q[1..])
    else ChildAt(children[1..], q)
  }

  /** The uid of the directory the node at `q` is in; `uid` for the node the path starts at. */
  function UidAbove(n: Node, q: Path, uid: int): int {
    if q == [] then uid
    else
      match NodeAt(n, q[..|q| - 1])
      case Some(m) => m.stat.uid
      case None => 0
  }

  predicate MisplacedAt(cfg: Config, n: Node, q: Path, expected: int, uid: int) {
    var m := NodeAt(n, q);
    m.Some? && Misplaced(cfg, m.value.stat.gid, expected, UidAbove(n, q, uid))
  }

  /** Does the walk get to the node at `q`? */
  ghost predicate Reached(cfg: Config, n: Node, q: Path, expected: int, uid: int) {
    cfg.force || forall k: nat :: k < |q| ==> MisplacedAt(cfg, n, q[..k], expected, uid)
  }

  ghost predicate FixedAt(cfg: Config, before: Node, after: Node, q: Path, expected: int, uid: int) {
    var m := NodeAt(before, q);
    var m' := NodeAt(after, q);
    && (m.Some? <==> m'.Some?)
    && (m.Some? ==>
          && SameButGid(m.value, m'.value)
          && m'.value.stat.gid ==
             if Reached(cfg, before, q, expected, uid) && MisplacedAt(cfg, before, q, expected, uid) && Fixable(m.value)
             then expected else m.value.stat.gid)
  }

  predicate SameButGid(a: Node, b: Node) {
    a.name == b.name && a.stat.(gid := b.stat.gid) == b.stat && (a.Dir? <==> b.Dir?)
    && (a.Dir? ==> a.xattrs == b.xattrs) && (a.Leaf? && b.Leaf? ==> a.kind == b.kind)
  }

  lemma {:induction false} PointwiseNode(cfg: Config, n: Node, q: Path, expected: int, uid: int)
    ensures FixedAt(cfg, n, FixNode(cfg, n, expected, uid), q, expected, uid)
    decreases |q|, n
  {
    if q == [] {
    } else if n.Dir? {
      assert q[..0] == [];
      if Descends(cfg, n, expected, uid) {
        PointwiseChildren(cfg, n, n.children, q, expected, uid);
      } else {
        assert !Reached(cfg, n, q, expected, uid) by {
          assert !MisplacedAt(cfg, n, q[..0], expected, uid);
        }
      }
    }
  }

  /** The child of `n` with the name q[0], first of `children`. */
  function FirstNamed(children: seq<Node>, name: string): Option<Node> {
    if children == [] then None
    else if children[0].name == name then Some(children[0])
    else FirstNamed(children[1..], name)
  }

  lemma {:induction false} ChildIsFirst(children: seq<Node>, q: Path)
    requires q != []
    ensures var c := FirstNamed(children, q[0]);
            ChildAt(children, q) == if c.Some? then NodeAt(c.value, q[1..]) else None
  {
    if children != [] {
      ChildIsFirst(children[1..], q);
    }
  }

  lemma {:induction false} FixedFirst(cfg: Config, children: seq<Node>, name: string, expected: int, uid: int)
    ensures var c := FirstNamed(children, name);
            FirstNamed(FixAll(cfg, children, expected, uid), name)
            == if c.Some? then Some(FixNode(cfg, c.value, expected, uid)) else None
  {
    if children != [] {
      FixedFirst(cfg, children[1..], name, expected, uid);
    }
  }

  lemma {:induction false} FirstIsChild(children: seq<Node>, name: string)
    ensures FirstNamed(children, name).Some? ==> FirstNamed(children, name).value in children
  {
    if children != [] {
      FirstIsChild(children[1..], name);
    }
  }

  /** Looking below a directory is looking below its child. */
  lemma DownOne(n: Node, c: Node, q: Path)
    requires q != [] && n.Dir? && FirstNamed(n.children, q[0]) == Some(c)
    ensures NodeAt(n, q) == NodeAt(c, q[1..])
    ensures forall uid :: UidAbove(n, q, uid) == UidAbove(c, q[1..], n.stat.uid)
  {
    ChildIsFirst(n.children, q);
    if |q| > 1 {
      var up := q[..|q| - 1];
      ChildIsFirst(n.children, up);
      assert up[1..] == q[1..][..|q[1..]| - 1];
    } else {
      assert q[..0] == [] && q[1..] == [];
    }
  }

  lemma ReachedBelow(cfg: Config, n: Node, c: Node, q: Path, expected: int, uid: int)
    requires q != [] && n.Dir? && FirstNamed(n.children, q[0]) == Some(c)
    requires Descends(cfg, n, expected, uid)
    ensures Reached(cfg, n, q, expected, uid) <==> Reached(cfg, c, q[1..], expected, n.stat.uid)
  {
    forall k: nat | 0 < k <= |q|
      ensures MisplacedAt(cfg, n, q[..k], expected, uid) == MisplacedAt(cfg, c, q[1..][..k - 1], expected, n.stat.uid)
    {
      DownOne(n, c, q[..k]);
      assert q[..k][1..] == q[1..][..k - 1];
    }
    if !cfg.force && Reached(cfg, n, q, expected, uid) {
      forall k: nat | k < |q[1..]| ensures MisplacedAt(cfg, c, q[1..][..k], expected, n.stat.uid) {
        assert MisplacedAt(cfg, n, q[..k + 1], expected, uid);
      }
    }
    if !cfg.force && Reached(cfg, c, q[1..], expected, n.stat.uid) {
      forall k: nat | k < |q| ensures MisplacedAt(cfg, n, q[..k], expected, uid) {
        if k == 0 {
          assert q[..0] == [];
        } else {
          assert MisplacedAt(cfg, c, q[1..][..k - 1], expected, n.stat.uid);
        }
      }
    }
  }

  lemma {:induction false} PointwiseChildren(cfg: Config, n: Node, children: seq<Node>, q: Path, expected: int,
                                             uid: int)
    requires q != [] && n.Dir? && children == n.children && Descends(cfg, n, expected, uid)
    ensures FixedAt(cfg, n, FixNode(cfg, n, expected, uid), q, expected, uid)
    decreases |q|, children
  {
    var fixed := FixNode(cfg, n, expected, uid);
    FixedFirst(cfg, children, q[0], expected, n.stat.uid);
    ChildIsFirst(children, q);
    ChildIsFirst(fixed.children, q);
    var first := FirstNamed(children, q[0]);
    if first.Some? {
      var c := first.value;
      FirstIsChild(children, q[0]);
      DownOne(n, c, q);
      ReachedBelow(cfg, n, c, q, expected, uid);
      PointwiseNode(cfg, c, q[1..], expected, n.stat.uid);
    }
  }

  // ----- From the root

  lemma {:induction false} FixedFirstPackage(cfg: Config, package: Node, children: seq<Node>, name: string)
    requires package.Dir?
    ensures var c := FirstNamed(children, name);
            FirstNamed(FixPackage(cfg, package, children), name)
            == if c.Some? then Some(FixNode(cfg, c.value, ExpectedGid(cfg, package, c.value), package.stat.uid))
               else None
  {
    if children != [] {
      FixedFirstPackage(cfg, package, children[1..], name);
    }
  }

  lemma {:induction false} FixedFirstOfPackages(cfg: Config, packages: seq<Node>, name: string)
    ensures var p := FirstNamed(packages, name);
            FirstNamed(FixPackages(cfg, packages), name)
            == if p.None? then None
               else Some(if p.value.Dir? then p.value.(children := FixPackage(cfg, p.value, p.value.children))
                         else p.value)
  {
    if packages != [] {
      FixedFirstOfPackages(cfg, packages[1..], name);
    }
  }

  /** An entry, as the recursion from its ancestor at level 2 sees it. */
  lemma EntryFate(cfg: Config, tree: Node, q: Path)
    ensures |q| < 2 ==>
              var m, m' := NodeAt(tree, q), NodeAt(FixTree(cfg, tree), q);
              (m.Some? <==> m'.Some?) && (m.Some? ==> SameButGid(m.value, m'.value) && m'.value.stat == m.value.stat)
    ensures |q| >= 2 ==>
              var package, entry := NodeAt(tree, q[..1]), NodeAt(tree, q[..2]);
              var entry' := NodeAt(FixTree(cfg, tree), q[..2]);
              if entry.None? then NodeAt(FixTree(cfg, tree), q).None?
              else
                && package.Some? && package.value.Dir? && entry'.Some?
                && NodeAt(FixTree(cfg, tree), q) == NodeAt(entry'.value, q[2..])
                && NodeAt(tree, q) == NodeAt(entry.value, q[2..])
                && FixedAt(cfg, entry.value, entry'.value, q[2..],
                           ExpectedGid(cfg, package.value, entry.value), package.value.stat.uid)
  {
    if q != [] && tree.Dir? {
      ChildIsFirst(tree.children, q);
      ChildIsFirst(FixTree(cfg, tree).children, q);
      FixedFirstOfPackages(cfg, tree.children, q[0]);
      var p := FirstNamed(tree.children, q[0]);
      if |q| >= 2 {
        assert q[..1][1..] == [] && q[..2][1..] == [q[1]] && q[1..][1..] == q[2..];
        ChildIsFirst(tree.children, q[..1]);
        ChildIsFirst(tree.children, q[..2]);
        ChildIsFirst(FixTree(cfg, tree).children, q[..2]);
        if p.Some? && p.value.Dir? {
          EveryEntryOf(cfg, p.value, q[1..]);
        }
      }
    }
  }

  lemma EveryEntryOf(cfg: Config, package: Node, q: Path)
    requires package.Dir? && q != []
    ensures var fixed := package.(children := FixPackage(cfg, package, package.children));
            var entry, entry' := NodeAt(package, [q[0]]), NodeAt(fixed, [q[0]]);
            if entry.None? then NodeAt(fixed, q).None?
            else
              && entry'.Some?
              && NodeAt(fixed, q) == NodeAt(entry'.value, q[1..])
              && NodeAt(package, q) == NodeAt(entry.value, q[1..])
              && FixedAt(cfg, entry.value, entry'.value, q[1..], ExpectedGid(cfg, package, entry.value),
                         package.stat.uid)
  {
    var fixed := package.(children := FixPackage(cfg, package, package.children));
    FixedFirstPackage(cfg, package, package.children, q[0]);
    ChildIsFirst(package.children, q);
    ChildIsFirst(fixed.children, q);
    ChildIsFirst(package.children, [q[0]]);
    ChildIsFirst(fixed.children, [q[0]]);
    var c := FirstNamed(package.children, q[0]);
    if c.Some? {
      PointwiseNode(cfg, c.value, q[1..], ExpectedGid(cfg, package, c.value), package.stat.uid);
    }
  }

  // ----- The rules, in terms of the tree alone

  /** The ancestor at level 2 is a cache directory of its package, by its name or by a recorded inode. */
  ghost predicate InCache(tree: Node, q: Path)
    requires |q| >= 2
  {
    var package, entry := NodeAt(tree, q[..1]), NodeAt(tree, q[..2]);
    && package.Some? && package.value.Dir? && entry.Some?
    && (|| entry.value.name in {"cache", "code_cache"}
        || entry.value.stat.ino in {package.value.xattrs.inodeCache, package.value.xattrs.inodeCodeCache})
  }

  /** The group for an entry at level 2 or deeper: the package's uid, and in a cache directory its cache group. */
  ghost function ProperGid(cfg: Config, tree: Node, q: Path): int
    requires |q| >= 2
  {
    var package := NodeAt(tree, q[..1]);
    var uid := if package.Some? then package.value.stat.uid else 0;
    if InCache(tree, q) then cfg.cacheGid(uid) else uid
  }

  ghost function ParentUid(tree: Node, q: Path): int
    requires |q| >= 2
  {
    var parent := NodeAt(tree, q[..|q| - 1]);
    if parent.Some? then parent.value.stat.uid else 0
  }

  /** The entry has its parent's uid or that uid's cache group as its group, where it should have another one. */
  ghost predicate HasWrongGroup(cfg: Config, tree: Node, q: Path)
    requires |q| >= 2
  {
    var m, uid := NodeAt(tree, q), ParentUid(tree, q);
    && m.Some? && m.value.stat.gid != ProperGid(cfg, tree, q)
    && (m.value.stat.gid == uid || m.value.stat.gid == cfg.cacheGid(uid))
  }

  /** It has, it is no socket, pipe or device, and without FORCE the same holds of all entries on the way. */
  ghost predicate ToBeFixed(cfg: Config, tree: Node, q: Path)
    requires |q| >= 2
  {
    && HasWrongGroup(cfg, tree, q)
    && (NodeAt(tree, q).value.Dir? || NodeAt(tree, q).value.kind != Special)
    && (cfg.force || forall k: nat | 2 <= k < |q| :: HasWrongGroup(cfg, tree, q[..k]))
  }

  /** Below an entry at level 2 the recursion and the rules mean the same. */
  lemma WrongBelow(cfg: Config, tree: Node, package: Node, entry: Node, q: Path)
    requires |q| >= 2 && package.Dir?
    requires NodeAt(tree, q[..1]) == Some(package) && NodeAt(tree, q[..2]) == Some(entry)
    requires NodeAt(tree, q) == NodeAt(entry, q[2..])
    requires |q| > 2 ==> NodeAt(tree, q[..|q| - 1]) == NodeAt(entry, q[2..|q| - 1])
    ensures ExpectedGid(cfg, package, entry) == ProperGid(cfg, tree, q)
    ensures NodeAt(tree, q).Some? ==> UidAbove(entry, q[2..], package.stat.uid) == ParentUid(tree, q)
    ensures MisplacedAt(cfg, entry, q[2..], ExpectedGid(cfg, package, entry), package.stat.uid)
            <==> HasWrongGroup(cfg, tree, q)
  {
    if |q| == 2 {
      assert q[2..] == [];
    } else {
      assert q[2..][..|q[2..]| - 1] == q[2..|q| - 1];
    }
  }

  lemma PackageIsAbove(tree: Node, q: Path) returns (package: Node, entry: Node)
    requires |q| >= 2 && NodeAt(tree, q[..2]).Some?
    ensures tree.Dir? && FirstNamed(tree.children, q[0]) == Some(package) && NodeAt(tree, q[..1]) == Some(package)
    ensures package.Dir? && FirstNamed(package.children, q[1]) == Some(entry) && NodeAt(tree, q[..2]) == Some(entry)
    ensures NodeAt(tree, q) == NodeAt(entry, q[2..])
  {
    assert q[..1][1..] == [] && q[..2][1..] == [q[1]] && q[1..][1..] == q[2..] && [q[1]][1..] == [];
    ChildIsFirst(tree.children, q);
    ChildIsFirst(tree.children, q[..1]);
    ChildIsFirst(tree.children, q[..2]);
    package := FirstNamed(tree.children, q[0]).value;
    ChildIsFirst(package.children, [q[1]]);
    ChildIsFirst(package.children, q[1..]);
    entry := FirstNamed(package.children, q[1]).value;
  }

  lemma {:induction false} NothingAbove(n: Node, q: Path, k: nat)
    requires k <= |q| && NodeAt(n, q).Some?
    ensures NodeAt(n, q[..k]).Some?
    decreases |q|
  {
    if k > 0 {
      ChildIsFirst(n.children, q);
      ChildIsFirst(n.children, q[..k]);
      assert q[..k][1..] == q[1..][..k - 1];
      NothingAbove(FirstNamed(n.children, q[0]).value, q[1..], k - 1);
    }
  }

  /** The rules for an entry, and for all entries on the way to it. */
  lemma RulesAgree(cfg: Config, tree: Node, package: Node, entry: Node, q: Path)
    requires |q| >= 2 && NodeAt(tree, q).Some?
    requires NodeAt(tree, q[..1]) == Some(package) && package.Dir? && NodeAt(tree, q[..2]) == Some(entry)
    ensures ExpectedGid(cfg, package, entry) == ProperGid(cfg, tree, q)
    ensures NodeAt(tree, q) == NodeAt(entry, q[2..])
    ensures UidAbove(entry, q[2..], package.stat.uid) == ParentUid(tree, q)
    ensures var expected := ExpectedGid(cfg, package, entry);
            ToBeFixed(cfg, tree, q)
            <==> Reached(cfg, entry, q[2..], expected, package.stat.uid)
                 && MisplacedAt(cfg, entry, q[2..], expected, package.stat.uid) && Fixable(NodeAt(tree, q).value)
  {
    var expected, uid := ExpectedGid(cfg, package, entry), package.stat.uid;
    forall k: nat | 2 <= k <= |q|
      ensures MisplacedAt(cfg, entry, q[2..k], expected, uid) <==> HasWrongGroup(cfg, tree, q[..k])
    {
      RuleAgrees(cfg, tree, package, entry, q, k);
    }
    RuleAgrees(cfg, tree, package, entry, q, |q|);
    assert q[2..|q|] == q[2..] && q[..|q|] == q;
    if Reached(cfg, entry, q[2..], expected, uid) && !cfg.force {
      forall k: nat | 2 <= k < |q| ensures HasWrongGroup(cfg, tree, q[..k]) {
        assert q[2..][..k - 2] == q[2..k];
        assert MisplacedAt(cfg, entry, q[2..][..k - 2], expected, uid);
      }
    }
    if !cfg.force && forall k: nat | 2 <= k < |q| :: HasWrongGroup(cfg, tree, q[..k]) {
      forall k: nat | k < |q[2..]| ensures MisplacedAt(cfg, entry, q[2..][..k], expected, uid) {
        assert q[2..][..k] == q[2..k + 2];
        assert HasWrongGroup(cfg, tree, q[..k + 2]);
      }
    }
  }

  lemma RuleAgrees(cfg: Config, tree: Node, package: Node, entry: Node, q: Path, k: nat)
    requires 2 <= k <= |q| && NodeAt(tree, q).Some?
    requires NodeAt(tree, q[..1]) == Some(package) && package.Dir? && NodeAt(tree, q[..2]) == Some(entry)
    ensures ExpectedGid(cfg, package, entry) == ProperGid(cfg, tree, q[..k])
    ensures NodeAt(tree, q[..k]) == NodeAt(entry, q[2..k])
    ensures UidAbove(entry, q[2..k], package.stat.uid) == ParentUid(tree, q[..k])
    ensures MisplacedAt(cfg, entry, q[2..k], ExpectedGid(cfg, package, entry), package.stat.uid)
            <==> HasWrongGroup(cfg, tree, q[..k])
  {
    var r := q[..k];
    NothingAbove(tree, q, k);
    assert r[..1] == q[..1] && r[..2] == q[..2] && r[2..] == q[2..k];
    var p, e := PackageIsAbove(tree, r);
    if k > 2 {
      var up := q[..k - 1];
      NothingAbove(tree, q, k - 1);
      assert up[..1] == q[..1] && up[..2] == q[..2] && up == r[..|r| - 1] && up[2..] == r[2..|r| - 1];
      var p', e' := PackageIsAbove(tree, up);
    }
    WrongBelow(cfg, tree, package, entry, r);
  }

  /**
    The fate of every entry of the data directory. At levels 0 and 1 nothing
    changes. An entry at level 2 or deeper changes exactly when it is no socket,
    pipe or device, its group is its parent's uid or that uid's cache group but
    not the one it should have, and the walk is forced or the same group rule is
    broken by every entry on the way from level 2. It then gets the group it
    should have: the cache group of the package's uid below an entry of the
    package that is called cache or code_cache or has one of the two recorded
    inodes, and otherwise the package's uid. Nothing but groups ever changes.
  */
  lemma EveryEntry(cfg: Config, tree: Node, q: Path)
    ensures var m, m' := NodeAt(tree, q), NodeAt(FixTree(cfg, tree), q);
            && (m.Some? <==> m'.Some?)
            && (m.Some? ==>
                  && SameButGid(m.value, m'.value)
                  && m'.value.stat.gid == if |q| >= 2 && ToBeFixed(cfg, tree, q) then ProperGid(cfg, tree, q)
                                          else m.value.stat.gid)
  {
    EntryFate(cfg, tree, q);
    if |q| >= 2 {
      if NodeAt(tree, q).Some? {
        NothingAbove(tree, q, 2);
      }
      if NodeAt(tree, q[..2]).Some? {
        var package, entry := PackageIsAbove(tree, q);
        if NodeAt(tree, q).Some? {
          RulesAgree(cfg, tree, package, entry, q);
        }
      }
    }
  }

  // ----- Every call

  /** The call made on a path, if there is one. */
  function FixAt(fixes: Fixes, p: Path): Fix {
    if p in fixes then fixes[p] else Fix(0, false)
  }

  /** Of calls made through a first child and through the later ones, those at a path are its child's. */
  lemma PickChild(first: Fixes, rest: Fixes, path: Path, children: seq<Node>, q: Path)
    requires children != [] && DistinctAll(children) && q != []
    requires KeysBelow(first, path + [children[0].name]) && KeysThrough(rest, path, children[1..])
    ensures var own := if children[0].name == q[0] then first else rest;
            (path + q in first + rest <==> path + q in own) && FixAt(first + rest, path + q) == FixAt(own, path + q)
  {
    assert (path + q)[|path|] == q[0];
    forall p <- first ensures |p| > |path| && p[|path|] == children[0].name {
      assert p[|path|] == (path + [children[0].name])[|path|];
    }
    forall p <- rest ensures |p| > |path| && p[|path|] != children[0].name {
      var c :| c in children[1..] && c.name == p[|path|];
    }
  }

  /** The call the recursion makes at `q` below an entry of level 2 or deeper, if it makes one. */
  ghost predicate CallAt(cfg: Config, n: Node, q: Path, expected: int, uid: int, made: bool, fix: Fix) {
    var m := NodeAt(n, q);
    && (made <==> m.Some? && Fixable(m.value) && MisplacedAt(cfg, n, q, expected, uid)
                  && Reached(cfg, n, q, expected, uid))
    && (made ==> fix == Fix(expected, m.value.Dir? && expected == cfg.cacheGid(UidAbove(n, q, uid))))
  }

  lemma {:induction false} NodeCall(cfg: Config, n: Node, path: Path, q: Path, expected: int, uid: int)
    requires DistinctNames(n)
    ensures var fixes := NodeFixes(cfg, n, path, expected, uid);
            CallAt(cfg, n, q, expected, uid, path + q in fixes, FixAt(fixes, path + q))
    decreases |q|, n
  {
    NodeKeys(cfg, n, path, expected, uid);
    if q == [] {
      assert path + q == path;
    } else {
      assert path + q != path;
      if n.Dir? {
        assert q[..0] == [];
        if Descends(cfg, n, expected, uid) {
          CallInside(cfg, n, path, q, expected, uid);
        } else {
          assert !MisplacedAt(cfg, n, q[..0], expected, uid);
        }
      }
    }
  }

  lemma {:induction false} CallInside(cfg: Config, n: Node, path: Path, q: Path, expected: int, uid: int)
    requires DistinctNames(n) && n.Dir? && Descends(cfg, n, expected, uid) && q != []
    ensures var fixes := AllFixes(cfg, n.children, path, expected, n.stat.uid);
            CallAt(cfg, n, q, expected, uid, path + q in fixes, FixAt(fixes, path + q))
    decreases |q|, n, 0
  {
    var c := FirstNamed(n.children, q[0]);
    CallAmong(cfg, n.children, path, q, expected, n.stat.uid);
    ChildIsFirst(n.children, q);
    if c.Some? {
      FirstIsChild(n.children, q[0]);
      DistinctChild(n.children, c.value);
      DownOne(n, c.value, q);
      ReachedBelow(cfg, n, c.value, q, expected, uid);
      assert (path + [q[0]]) + q[1..] == path + q;
      NodeCall(cfg, c.value, path + [q[0]], q[1..], expected, n.stat.uid);
    }
  }

  lemma {:induction false} DistinctChild(children: seq<Node>, c: Node)
    requires DistinctAll(children) && c in children
    ensures DistinctNames(c)
    decreases |children|
  {
    if c != children[0] {
      DistinctChild(children[1..], c);
    }
  }

  /** The calls at `q` among these children are those of the child named q[0]. */
  lemma {:induction false} CallAmong(cfg: Config, children: seq<Node>, path: Path, q: Path, expected: int, uid: int)
    requires DistinctAll(children) && q != []
    ensures var fixes, c := AllFixes(cfg, children, path, expected, uid), FirstNamed(children, q[0]);
            var own := if c.Some? then NodeFixes(cfg, c.value, path + [q[0]], expected, uid) else map[];
            (path + q in fixes <==> path + q in own) && FixAt(fixes, path + q) == FixAt(own, path + q)
    decreases |children|
  {
    if children != [] {
      var c, below := children[0], path + [children[0].name];
      NodeKeys(cfg, c, below, expected, uid);
      AllKeys(cfg, children[1..], path, expected, uid);
      PickChild(NodeFixes(cfg, c, below, expected, uid), AllFixes(cfg, children[1..], path, expected, uid),
                path, children, q);
      CallAmong(cfg, children[1..], path, q, expected, uid);
    }
  }

  lemma {:induction false} CallInPackage(cfg: Config, package: Node, children: seq<Node>, path: Path, q: Path)
    requires package.Dir? && DistinctAll(children) && q != []
    ensures var fixes, c := PackageFixes(cfg, package, children, path), FirstNamed(children, q[0]);
            var own := if c.None? then map[]
                       else NodeFixes(cfg, c.value, path + [q[0]], ExpectedGid(cfg, package, c.value),
                                      package.stat.uid);
            (path + q in fixes <==> path + q in own) && FixAt(fixes, path + q) == FixAt(own, path + q)
    decreases |children|
  {
    if children != [] {
      var c, below := children[0], path + [children[0].name];
      var first := NodeFixes(cfg, c, below, ExpectedGid(cfg, package, c), package.stat.uid);
      NodeKeys(cfg, c, below, ExpectedGid(cfg, package, c), package.stat.uid);
      PackageKeys(cfg, package, children[1..], path);
      PickChild(first, PackageFixes(cfg, package, children[1..], path), path, children, q);
      CallInPackage(cfg, package, children[1..], path, q);
    }
  }

  lemma {:induction false} CallInPackages(cfg: Config, packages: seq<Node>, path: Path, q: Path)
    requires DistinctAll(packages) && q != []
    ensures var fixes, p := PackagesFixes(cfg, packages, path), FirstNamed(packages, q[0]);
            var own := if p.None? then map[] else OnePackage(cfg, p.value, path + [q[0]]);
            (path + q in fixes <==> path + q in own) && FixAt(fixes, path + q) == FixAt(own, path + q)
    decreases |packages|
  {
    if packages != [] {
      var p, below := packages[0], path + [packages[0].name];
      OnePackageKeys(cfg, p, below);
      PackagesKeys(cfg, packages[1..], path);
      PickChild(OnePackage(cfg, p, below), PackagesFixes(cfg, packages[1..], path), path, packages, q);
      CallInPackages(cfg, packages[1..], path, q);
    }
  }

  /** No call is made where there is no entry at level 2. */
  lemma CallFromRoot(cfg: Config, tree: Node, path: Path, q: Path)
    requires DistinctNames(tree)
    ensures path + q in TreeFixes(cfg, tree, path) ==> |q| >= 2 && NodeAt(tree, q[..2]).Some?
    ensures |q| >= 2 && NodeAt(tree, q[..2]).Some? ==>
              var package, entry := NodeAt(tree, q[..1]), NodeAt(tree, q[..2]).value;
              && package.Some? && package.value.Dir?
              && var fixes, expected := TreeFixes(cfg, tree, path), ExpectedGid(cfg, package.value, entry);
                 CallAt(cfg, entry, q[2..], expected, package.value.stat.uid, path + q in fixes, FixAt(fixes, path + q))
  {
    if tree.Dir? {
      if q == [] {
        PackagesKeys(cfg, tree.children, path);
        assert path + q == path;
      } else {
        CallInPackages(cfg, tree.children, path, q);
        CallInFirst(cfg, tree, path, q);
      }
    }
  }

  lemma CallInFirst(cfg: Config, tree: Node, path: Path, q: Path)
    requires DistinctNames(tree) && tree.Dir? && q != []
    ensures var p := FirstNamed(tree.children, q[0]);
            p.Some? && path + q in OnePackage(cfg, p.value, path + [q[0]]) ==>
              |q| >= 2 && NodeAt(tree, q[..2]).Some?
    ensures |q| >= 2 && NodeAt(tree, q[..2]).Some? ==>
              var p, entry := FirstNamed(tree.children, q[0]), NodeAt(tree, q[..2]).value;
              && p.Some? && p.value.Dir? && NodeAt(tree, q[..1]) == p
              && var fixes, expected := OnePackage(cfg, p.value, path + [q[0]]), ExpectedGid(cfg, p.value, entry);
                 CallAt(cfg, entry, q[2..], expected, p.value.stat.uid, path + q in fixes, FixAt(fixes, path + q))
  {
    var p := FirstNamed(tree.children, q[0]);
    if p.Some? && p.value.Dir? {
      var below := path + [q[0]];
      assert below + q[1..] == path + q;
      if |q| == 1 {
        OnePackageKeys(cfg, p.value, below);
        assert path + q == below;
      } else {
        FirstIsChild(tree.children, q[0]);
        DistinctChild(tree.children, p.value);
        CallInPackage(cfg, p.value, p.value.children, below, q[1..]);
        CallInSecond(cfg, tree, p.value, below, q);
      }
    }
    if |q| >= 2 && NodeAt(tree, q[..2]).Some? {
      var package, entry := PackageIsAbove(tree, q);
    }
  }

  lemma CallInSecond(cfg: Config, tree: Node, package: Node, below: Path, q: Path)
    requires |q| >= 2 && tree.Dir? && FirstNamed(tree.children, q[0]) == Some(package) && package.Dir?
    requires DistinctNames(package)
    ensures NodeAt(tree, q[..2]) == FirstNamed(package.children, q[1])
    ensures NodeAt(tree, q[..2]).Some? ==>
              var entry := NodeAt(tree, q[..2]).value;
              var expected := ExpectedGid(cfg, package, entry);
              var fixes := NodeFixes(cfg, entry, below + [q[1]], expected, package.stat.uid);
              CallAt(cfg, entry, q[2..], expected, package.stat.uid,
                     below + q[1..] in fixes, FixAt(fixes, below + q[1..]))
  {
    assert q[..2][1..] == [q[1]] && [q[1]][1..] == [];
    ChildIsFirst(tree.children, q[..2]);
    ChildIsFirst(package.children, [q[1]]);
    var entry := FirstNamed(package.children, q[1]);
    if entry.Some? {
      FirstIsChild(package.children, q[1]);
      DistinctChild(package.children, entry.value);
      assert (below + [q[1]]) + q[2..] == below + q[1..];
      NodeCall(cfg, entry.value, below + [q[1]], q[2..], ExpectedGid(cfg, package, entry.value), package.stat.uid);
    }
  }

  /**
    Every call of a walk: one is made on exactly the entries that are to be
    fixed, with the group that the entry should have, and with a chmod exactly
    for directories whose new group is the cache group of their parent's uid.
  */
  lemma EveryCall(cfg: Config, tree: Node, path: Path, q: Path)
    requires DistinctNames(tree)
    ensures path + q in TreeFixes(cfg, tree, path) <==> |q| >= 2 && ToBeFixed(cfg, tree, q)
    ensures path + q in TreeFixes(cfg, tree, path) && |q| >= 2 ==>
              var gid := ProperGid(cfg, tree, q);
              && NodeAt(tree, q).Some?
              && TreeFixes(cfg, tree, path)[path + q]
                 == Fix(gid, NodeAt(tree, q).value.Dir? && gid == cfg.cacheGid(ParentUid(tree, q)))
  {
    CallFromRoot(cfg, tree, path, q);
    if |q| >= 2 {
      if NodeAt(tree, q).Some? {
        NothingAbove(tree, q, 2);
      }
      if NodeAt(tree, q[..2]).Some? {
        var package, entry := PackageIsAbove(tree, q);
        if NodeAt(tree, q).Some? {
          RulesAgree(cfg, tree, package, entry, q);
        }
      }
    }
  }
}
