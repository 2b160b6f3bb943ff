/** Reading directories: the tree that a walk over a file system of paths will find. */
module Listing {
  import opened Fts
  import opened CacheItems
  import opened CacheCoverage
  import opened Purge
  import opened GroupPurge

  /** The parts of a listing that purging does not look at. */
  const NO_STAT := Stat(0, 0, 0, 0, 0)

  function NameOf(p: Path): string {
    if p == [] then "" else p[|p| - 1]
  }

  function Names(fs: Files, p: Path): set<string> {
    set q <- fs.Keys | |q| == |p| + 1 && p < q :: q[|p|]
  }

  /** What is below a path starts with one of the names in it. */
  lemma {:induction false} BelowAName(fs: Files, p: Path, q: Path)
    requires Closed(fs, []) && p < q && q in fs
    ensures p in fs && fs[p].Folder?
    ensures q[|p|] in Names(fs, p) && p + [q[|p|]] in fs && p + [q[|p|]] <= q
    decreases |q|
  {
    if |q| == |p| + 1 {
      assert ParentOf(q) == p && p + [q[|p|]] == q;
    } else {
      BelowAName(fs, p, ParentOf(q));
      assert ParentOf(q)[|p|] == q[|p|];
      assert p + [q[|p|]] <= ParentOf(q) <= q;
    }
  }

  lemma NameIsBelow(fs: Files, p: Path, name: string)
    requires name in Names(fs, p)
    ensures p + [name] in fs
  {
    var q :| q in fs && |q| == |p| + 1 && p < q && q[|p|] == name;
    assert q == p + [name];
  }

  lemma FewerBelow(fs: Files, p: Path, name: string)
    requires p in fs
    ensures |Subtree(fs, p + [name])| < |Subtree(fs, p)|
  {
    assert Subtree(fs, p + [name]) <= Subtree(fs, p) - {p};
    Smaller(Subtree(fs, p + [name]), Subtree(fs, p) - {p});
  }

  lemma {:induction false} Smaller<T>(a: set<T>, b: set<T>)
    requires a <= b
    ensures |a| <= |b|
  {
    assert b == a + (b - a);
  }

  /** Lists a directory and everything below it, in no particular order. */
  method ListTree(fs: Files, p: Path) returns (n: Node)
    requires Closed(fs, []) && p in fs
    ensures Mirrors(fs, n, p) && DistinctNames(n)
    ensures n.name == NameOf(p) && (n.Dir? <==> fs[p].Folder?)
    decreases |Subtree(fs, p)|, 1
  {
    match fs[p] {
      case Plain(kind, _, _, _) =>
        n := Leaf(NameOf(p), kind, NO_STAT);
        if Holds(fs, p) {
          var q :| q in fs && p < q;
          BelowAName(fs, p, q);
          assert false;
        }
      case Folder(tombstone) =>
        var children := ListChildren(fs, p, Names(fs, p));
        n := Dir(NameOf(p), NO_STAT, Xattrs(false, tombstone, 0, 0), children);
        forall q <- fs.Keys | p < q ensures Below(children, p, q) {
          BelowAName(fs, p, q);
        }
    }
  }

  /** Lists the entries of a directory that have these names. */
  method ListChildren(fs: Files, p: Path, names: set<string>) returns (children: seq<Node>)
    requires Closed(fs, []) && p in fs && names <= Names(fs, p)
    ensures DistinctAll(children)
    ensures forall c <- children :: c.name in names && Mirrors(fs, c, p + [c.name])
    ensures forall name <- names :: exists c <- children :: c.name == name
    decreases |Subtree(fs, p)|, 0, names
  {
    if exists name :: name in names {
      var name :| name in names;
      NameIsBelow(fs, p, name);
      FewerBelow(fs, p, name);
      var c := ListTree(fs, p + [name]);
      var rest := ListChildren(fs, p, names - {name});
      children := [c] + rest;
      assert children[1..] == rest;
      forall m <- names ensures exists d <- children :: d.name == m {
        if m == name {
          assert c in children;
        } else {
          assert m in names - {name};
          var d :| d in rest && d.name == m;
          assert d in children;
        }
      }
    } else {
      children := [];
    }
  }
}
