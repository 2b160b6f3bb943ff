/**
  The file-tree walk (fts_open, fts_read, fts_set with FTS_SKIP) that every
  walker of installd is a loop over.

  A directory tree is a datatype; a walk is a stack of pending work. Entering a
  directory is reported first (FTS_D), then its children, then the directory
  once more (FTS_DP). A skip requested while a directory is being entered drops
  its children but not its FTS_DP report. `Run` folds a walker's step function
  over the reports of a walk; the loops of the walkers are proved equal to it.
*/
module Fts {
  import opened Wrappers

  type Path = seq<string>

  /** Of two paths at or above a third, one is at or above the other. */
  lemma Comparable(a: Path, b: Path, q: Path)
    requires a <= q && b <= q
    ensures a <= b || b <= a
  {
  }

  datatype Kind = Regular | Symlink | Special

  datatype Stat = Stat(ino: nat, uid: int, gid: int, blocks: nat, mtime: int)

  /** The extended attributes installd reads from directories. */
  datatype Xattrs = Xattrs(group: bool, tombstone: bool, inodeCache: nat, inodeCodeCache: nat)

  datatype Node =
    | Leaf(name: string, kind: Kind, stat: Stat)
    | Dir(name: string, stat: Stat, xattrs: Xattrs, children: seq<Node>)

  datatype Info = FTS_D | FTS_DP | FTS_F | FTS_SL | FTS_DEFAULT

  /** One report of the walk; `parent` is the stat buffer of the entry's parent. */
  datatype Entry = Entry(info: Info, path: Path, level: nat, node: Node, parent: Stat)

  datatype Work =
    | Enter(node: Node, path: Path, level: nat, parent: Stat)
    | Leave(node: Node, path: Path, level: nat, parent: Stat)

  const BLOCK_SIZE := 512

  function SizeOf(n: Node): (size: nat) {
    n.stat.blocks * BLOCK_SIZE
  }

  function LeafInfo(kind: Kind): Info {
    match kind
    case Regular => FTS_F
    case Symlink => FTS_SL
    case Special => FTS_DEFAULT
  }

  /** The report at the head of the pending work. */
  function Report(w: Work): (e: Entry) {
    match w
    case Enter(n, p, l, s) => Entry(if n.Dir? then FTS_D else LeafInfo(n.kind), p, l, n, s)
    case Leave(n, p, l, s) => Entry(FTS_DP, p, l, n, s)
  }

  function ChildWork(children: seq<Node>, path: Path, level: nat, parent: Stat): (w: seq<Work>) {
    if children == [] then []
    else [Enter(children[0], path + [children[0].name], level + 1, parent)]
         + ChildWork(children[1..], path, level, parent)
  }

  /** What is pending after the head of `work` was reported. */
  function Advance(work: seq<Work>, skip: bool): (rest: seq<Work>)
    requires work != []
    ensures Pending(rest) < Pending(work)
  {
    var w := work[0];
    if w.Enter? && w.node.Dir? then
      var leave := [Leave(w.node, w.path, w.level, w.parent)];
      var inside := if skip then [] else ChildWork(w.node.children, w.path, w.level, w.node.stat);
      PendingChildren(w.node.children, w.path, w.level, w.node.stat);
      PendingSplit(inside, leave);
      PendingSplit(inside + leave, work[1..]);
      inside + leave + work[1..]
    else
      work[1..]
  }

  // ----- Walks are finite

  /** The number of reports a full walk of `n` makes. */
  function Reports(n: Node): nat {
    match n
    case Leaf(_, _, _) => 1
    case Dir(_, _, _, children) => 2 + ReportsAll(children)
  }

  function ReportsAll(children: seq<Node>): nat {
    if children == [] then 0 else Reports(children[0]) + ReportsAll(children[1..])
  }

  function Pending(work: seq<Work>): nat {
    if work == [] then 0
    else (if work[0].Enter? then Reports(work[0].node) else 1) + Pending(work[1..])
  }

  lemma {:induction false} PendingSplit(a: seq<Work>, b: seq<Work>)
    ensures Pending(a + b) == Pending(a) + Pending(b)
  {
    if a == [] {
      assert a + b == b;
    } else {
      PendingSplit(a[1..], b);
      assert (a + b)[1..] == a[1..] + b;
    }
  }

  lemma {:induction false} PendingChildren(children: seq<Node>, path: Path, level: nat, parent: Stat)
    ensures Pending(ChildWork(children, path, level, parent)) == ReportsAll(children)
  {
    if children != [] {
      PendingChildren(children[1..], path, level, parent);
      var rest := ChildWork(children[1..], path, level, parent);
      var first := Enter(children[0], path + [children[0].name], level + 1, parent);
      assert ([first] + rest)[1..] == rest;
    }
  }

  // ----- Folding a walker over a walk

  /** The walker's state after every report of `work`; `step` also says whether to skip. */
  ghost function Run<S>(step: (S, Entry) -> (S, bool), work: seq<Work>, s: S): S
    decreases Pending(work)
  {
    if work == [] then s
    else
      var (s', skip) := step(s, Report(work[0]));
      Run(step, Advance(work, skip), s')
  }

  /** One report of a walk. */
  lemma RunStep<S>(step: (S, Entry) -> (S, bool), work: seq<Work>, s: S, s': S, skip: bool)
    requires work != [] && step(s, Report(work[0])) == (s', skip)
    ensures Run(step, work, s) == Run(step, Advance(work, skip), s')
  {
  }

  /** A walk of `a` followed by `b` is the walk of `b` started where `a` ended. */
  lemma {:induction false} RunSplit<S>(step: (S, Entry) -> (S, bool), a: seq<Work>, b: seq<Work>, s: S)
    ensures Run(step, a + b, s) == Run(step, b, Run(step, a, s))
    decreases Pending(a)
  {
    if a == [] {
      assert a + b == b;
    } else {
      var (s', skip) := step(s, Report(a[0]));
      assert (a + b)[1..] == a[1..] + b;
      assert Advance(a + b, skip) == Advance(a, skip) + b;
      RunSplit(step, Advance(a, skip), b, s');
    }
  }

  /** Walking a leaf is one step. */
  lemma RunLeaf<S>(step: (S, Entry) -> (S, bool), w: Work, s: S)
    requires w.Enter? && w.node.Leaf?
    ensures Run(step, [w], s) == step(s, Report(w)).0
  {
    var (s', skip) := step(s, Report(w));
    assert Advance([w], skip) == [];
  }

  /** Walking a directory: its FTS_D step, its children unless skipped, its FTS_DP step. */
  lemma RunDir<S>(step: (S, Entry) -> (S, bool), w: Work, s: S)
    requires w.Enter? && w.node.Dir?
    ensures var (s1, skip) := step(s, Report(w));
            var inside := ChildWork(w.node.children, w.path, w.level, w.node.stat);
            var s2 := if skip then s1 else Run(step, inside, s1);
            Run(step, [w], s) == step(s2, Report(Leave(w.node, w.path, w.level, w.parent))).0
  {
    var (s1, skip) := step(s, Report(w));
    var leave := Leave(w.node, w.path, w.level, w.parent);
    var inside := if skip then [] else ChildWork(w.node.children, w.path, w.level, w.node.stat);
    assert Advance([w], skip) == inside + [leave];
    RunSplit(step, inside, [leave], s1);
    var s2 := Run(step, inside, s1);
    assert Advance([leave], step(s2, Report(leave)).1) == [];
  }

  /** Walking a list of children: the first one, then the others. */
  lemma RunChildren<S>(step: (S, Entry) -> (S, bool), children: seq<Node>, path: Path, level: nat, parent: Stat, s: S)
    requires children != []
    ensures var first := Enter(children[0], path + [children[0].name], level + 1, parent);
            Run(step, ChildWork(children, path, level, parent), s)
            == Run(step, ChildWork(children[1..], path, level, parent), Run(step, [first], s))
  {
    var first := Enter(children[0], path + [children[0].name], level + 1, parent);
    RunSplit(step, [first], ChildWork(children[1..], path, level, parent), s);
  }

  /** A tree to walk, and where it is. */
  type Root = (Node, Path)

  /** A user: whether a walk over the user's data directories can be opened, and those of them that are there. */
  datatype User = User(opens: bool, roots: seq<Root>)

  predicate AllOpen(users: seq<User>) {
    forall u <- users :: u.opens
  }

  /** A walk over several roots, one after the other. */
  function RootWork(roots: seq<Root>): seq<Work> {
    if roots == [] then [] else [Enter(roots[0].0, roots[0].1, 0, roots[0].0.stat)] + RootWork(roots[1..])
  }

  /** The walk handle: fts_open is the constructor, fts_read is Read, fts_set(FTS_SKIP) is Skip. */
  class Walk {
    var work: seq<Work>
    var started: bool
    var skip: bool

    constructor (root: Node, path: Path)
      ensures work == [Enter(root, path, 0, root.stat)] && !started && !skip
    {
      work := [Enter(root, path, 0, root.stat)];
      started, skip := false, false;
    }

    constructor Of(roots: seq<Root>)
      ensures work == RootWork(roots) && !started && !skip
    {
      work := RootWork(roots);
      started, skip := false, false;
    }

    /** What the next Read will find pending. */
    ghost function Upcoming(): seq<Work>
      reads this
    {
      if started && work != [] then Advance(work, skip) else work
    }

    method Read() returns (p: Option<Entry>)
      modifies this
      ensures started && !skip
      ensures work == old(Upcoming())
      ensures p == if work == [] then None else Some(Report(work[0]))
    {
      if started && work != [] {
        work := Advance(work, skip);
      }
      started, skip := true, false;
      p := if work == [] then None else Some(Report(work[0]));
    }

    method Skip()
      modifies this`skip
      ensures skip
    {
      skip := true;
    }
  }
}
