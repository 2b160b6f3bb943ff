/**
  Purges and the rest of the file system: a purge keeps every remaining entry in
  a directory, its entries are the same when only the tree it is in is looked
  at, and it leaves the entries of trees that it is not in alone.
*/
module PurgeLocality {
  import opened Fts
  import opened CacheItems
  import opened Purge
  import opened GroupPurge

  /** Every entry that a purge leaves is still in a directory. */
  lemma PurgeKeepsClosed(fs: Files, after: Files, p: Path, directory: bool, tombstone: bool)
    requires Closed(fs, []) && p != [] && PurgeEffect(fs, after, p, directory, tombstone)
    ensures Closed(after, [])
  {
    PurgeDwindles(fs, after, p, directory, tombstone);
    forall q <- after.Keys | [] < q ensures ParentOf(q) in after && after[ParentOf(q)].Folder? {
      assert ParentOf(q) in fs && fs[ParentOf(q)].Folder?;
      if p in fs && directory {
        ParentStays(fs, after, p, tombstone, q);
      }
    }
  }

  lemma ParentStays(fs: Files, after: Files, p: Path, tombstone: bool, q: Path)
    requires p in fs && PurgeEffect(fs, after, p, true, tombstone)
    requires q in after && q != [] && ParentOf(q) in fs
    ensures ParentOf(q) in after
  {
    var up := ParentOf(q);
    if p <= up {
      assert p <= q;
      var r :| r in fs && q <= r && Spared(fs, p, tombstone, r);
      assert up <= r;
    }
  }

  // ----- The entries of one tree of the file system

  /** The entries at and below a path; what regular files contain is left out of account. */
  ghost function Part(fs: Files, root: Path): Files {
    map q | q in fs && root <= q :: Spent(fs[q])
  }

  lemma {:induction false} SameFlagInPart(fs: Files, root: Path, p: Path, tombstone: bool, d: Path)
    requires root <= p && (p <= d || |d| <= |p|)
    ensures Flag(Part(fs, root), p, tombstone, d) == Flag(fs, p, tombstone, d)
    decreases |d|
  {
    if |d| > |p| {
      assert p <= ParentOf(d) && root <= d;
      SameFlagInPart(fs, root, p, tombstone, ParentOf(d));
    }
  }

  lemma SparedInPart(fs: Files, root: Path, p: Path, tombstone: bool, r: Path)
    requires root <= p
    ensures Spared(Part(fs, root), p, tombstone, r) <==> Spared(fs, p, tombstone, r)
  {
    if p < r {
      assert p <= ParentOf(r) && root <= r;
      SameFlagInPart(fs, root, p, tombstone, ParentOf(r));
    }
  }

  lemma SurvivesInPart(fs: Files, root: Path, p: Path, tombstone: bool, q: Path)
    requires root <= p
    ensures Survives(Part(fs, root), p, tombstone, q) <==> Survives(fs, p, tombstone, q)
  {
    if Survives(fs, p, tombstone, q) {
      var r :| r in fs && q <= r && Spared(fs, p, tombstone, r);
      SparedInPart(fs, root, p, tombstone, r);
      assert root <= p < r;
      assert r in Part(fs, root);
    }
    if Survives(Part(fs, root), p, tombstone, q) {
      var r :| r in Part(fs, root) && q <= r && Spared(Part(fs, root), p, tombstone, r);
      SparedInPart(fs, root, p, tombstone, r);
    }
  }

  lemma RemovedInPart(fs: Files, root: Path, p: Path, directory: bool, tombstone: bool, q: Path)
    requires root <= p
    ensures Removed(Part(fs, root), p, directory, tombstone, q) <==> Removed(fs, p, directory, tombstone, q)
  {
    if p <= q {
      assert root <= q;
      SurvivesInPart(fs, root, p, tombstone, q);
    }
  }

  /** Inside a tree, a purge of the file system is the same purge of the tree. */
  lemma PurgeInPart(fs: Files, after: Files, root: Path, p: Path, directory: bool, tombstone: bool)
    requires root <= p && PurgeEffect(fs, after, p, directory, tombstone)
    ensures PurgeEffect(Part(fs, root), Part(after, root), p, directory, tombstone)
  {
    var part, part' := Part(fs, root), Part(after, root);
    forall q ensures q in part' <==> q in part && !Removed(part, p, directory, tombstone, q) {
      RemovedInPart(fs, root, p, directory, tombstone, q);
    }
    EntriesKept(fs, after, root, p, directory, tombstone);
  }

  /** Emptying files, wherever they are, leaves their entries as they are. */
  lemma EntriesKept(fs: Files, after: Files, root: Path, p: Path, directory: bool, tombstone: bool)
    requires PurgeEffect(fs, after, p, directory, tombstone)
    ensures forall q <- Part(after, root).Keys :: q in Part(fs, root) && Part(after, root)[q] == Part(fs, root)[q]
    ensures forall inos :: Drains(Part(fs, root), Part(after, root), inos)
  {
  }

  /** A purge elsewhere leaves a tree as it is. */
  lemma PurgeElsewhere(fs: Files, after: Files, root: Path, p: Path, directory: bool, tombstone: bool)
    requires !(root <= p) && !(p <= root) && PurgeEffect(fs, after, p, directory, tombstone)
    ensures Part(after, root) == Part(fs, root)
  {
    EntriesKept(fs, after, root, p, directory, tombstone);
    forall q <- fs.Keys | root <= q ensures q in after {
      if p <= q {
        Comparable(root, p, q);
      }
    }
    assert Part(after, root).Keys == Part(fs, root).Keys;
  }

  lemma {:induction false} MirrorsInPart(fs: Files, root: Path, n: Node, path: Path)
    requires root <= path && Mirrors(fs, n, path)
    ensures Mirrors(Part(fs, root), n, path)
    decreases n
  {
    if n.Dir? {
      forall c <- n.children ensures Mirrors(Part(fs, root), c, path + [c.name]) {
        MirrorsInPart(fs, root, c, path + [c.name]);
      }
    }
  }

  lemma HoldsInPart(fs: Files, root: Path, p: Path)
    requires root <= p
    ensures Holds(Part(fs, root), p) <==> Holds(fs, p)
  {
    if Holds(fs, p) {
      var q :| q in fs && p < q;
      assert q in Part(fs, root);
    }
  }

  lemma WorksInPart(fs: Files, root: Path, p: Path, directory: bool, tombstone: bool)
    requires root <= p && (directory || !tombstone || IsFile(fs, p))
    ensures PurgeWorks(Part(fs, root), p, directory, tombstone) <==> PurgeWorks(fs, p, directory, tombstone)
  {
    SurvivesInPart(fs, root, p, tombstone, p);
  }
}
