/**
  Purging the items of a tree in any order, one by one or as a group, leaves the
  same entries: which of them remain depends only on which nodes were covered.
  The contents of files elsewhere can depend on the order, because truncating a
  lone tombstoned link empties the file it leads to at that moment.

  `Remains` is that file system, path by path, for a covered set that is closed
  downwards and the inodes emptied through links; every purge of a further item
  is shown to extend the covered set by the item's subtree.
*/
module GroupPurge {
  import opened Wrappers
  import opened Fts
  import opened CacheItems
  import opened Purge

  /** Below `root`, everything is in a directory. */
  ghost predicate Closed(fs: Files, root: Path) {
    forall q <- fs.Keys | root < q :: ParentOf(q) in fs && fs[ParentOf(q)].Folder?
  }

  /** The tombstone mark a directory inherits or has; the root passes none on. */
  ghost predicate Tombstoned(fs: Files, root: Path, d: Path) {
    Flag(fs, root, false, d)
  }

  /** The tombstone field of the item for `p`. */
  ghost predicate Mark(fs: Files, root: Path, p: Path)
    requires p in fs && p != []
  {
    Tombstoned(fs, root, if fs[p].Folder? then p else ParentOf(p))
  }

  ghost function Subtree(fs: Files, p: Path): set<Path> {
    set q <- fs.Keys | p <= q
  }

  ghost predicate DownClosed(fs: Files, covered: set<Path>) {
    && covered <= fs.Keys
    && (forall q <- covered, r <- fs.Keys | q <= r :: r in covered)
  }

  /** A path that is, or contains, a regular file in a tombstoned directory. */
  ghost predicate Kept(fs: Files, root: Path, q: Path) {
    Survives(fs, root, false, q)
  }

  /** Is a covered path still there? A lone tombstoned symlink is, until its directory is covered. */
  ghost predicate Stays(fs: Files, root: Path, covered: set<Path>, q: Path)
    requires q in fs && q != []
  {
    || Kept(fs, root, q)
    || (fs[q].Plain? && fs[q].kind != Regular && Tombstoned(fs, root, ParentOf(q)) && ParentOf(q) !in covered)
  }

  /** The inodes of the covered regular files in tombstoned directories: truncating these empties them. */
  ghost function KeptInos(fs: Files, root: Path, covered: set<Path>): set<nat> {
    set r <- fs.Keys | r in covered && Spared(fs, root, false, r) :: fs[r].ino
  }

  /**
    What is left of `fs` when the items of the `covered` nodes were purged,
    emptying the inodes `emptied` through links.
  */
  ghost predicate Remains(fs: Files, root: Path, covered: set<Path>, emptied: set<nat>, now: Files) {
    && (forall q | q !in covered :: q in now <==> q in fs)
    && (forall q | q in covered && q in fs && q != [] :: q in now <==> Stays(fs, root, covered, q))
    && Drains(fs, now, KeptInos(fs, root, covered) + emptied)
  }

  /** A file that is not covered, nor has a covered name that is emptied, is emptied the one way and not the other. */
  ghost predicate Differs(fs: Files, root: Path, covered: set<Path>, one: set<nat>, other: set<nat>, q: Path) {
    && IsFile(fs, q) && !fs[q].empty && q !in covered && fs[q].ino !in KeptInos(fs, root, covered)
    && (fs[q].ino in one <==> fs[q].ino !in other)
  }

  /** Of these files, both ways emptied the same ones. */
  ghost predicate EmptiedAlike(fs: Files, root: Path, covered: set<Path>, one: set<nat>, other: set<nat>) {
    !exists q :: Differs(fs, root, covered, one, other, q)
  }

  /** The same up to the contents of regular files. */
  ghost predicate SameEntries(a: Files, b: Files) {
    a.Keys == b.Keys && forall q <- a.Keys :: Spent(a[q]) == Spent(b[q])
  }

  /** A covered regular file that is still there was emptied. */
  lemma StayingIsKept(fs: Files, root: Path, covered: set<Path>, q: Path)
    requires Closed(fs, root) && root < q && q in covered && IsFile(fs, q) && Stays(fs, root, covered, q)
    ensures fs[q].ino in KeptInos(fs, root, covered)
  {
    FileIsBottom(fs, root, q);
    var r :| r in fs && q <= r && Spared(fs, root, false, r);
    assert r in Subtree(fs, q);
  }

  /** The covered set determines what is there; with the inodes emptied through links it determines all. */
  lemma RemainsIsUnique(fs: Files, root: Path, covered: set<Path>, one: set<nat>, other: set<nat>, a: Files, b: Files)
    requires Closed(fs, root) && Remains(fs, root, covered, one, a) && Remains(fs, root, covered, other, b)
    requires covered <= fs.Keys && forall q <- covered :: root < q
    ensures SameEntries(a, b)
    ensures a == b <==> EmptiedAlike(fs, root, covered, one, other)
  {
    assert forall q :: q in a <==> q in b;
    assert a.Keys == b.Keys;
    if !EmptiedAlike(fs, root, covered, one, other) {
      var q :| Differs(fs, root, covered, one, other, q);
      assert a[q] != b[q];
    } else {
      forall q <- a.Keys ensures a[q] == b[q] {
        assert !Differs(fs, root, covered, one, other, q);
        if q in covered && IsFile(fs, q) {
          StayingIsKept(fs, root, covered, q);
        }
      }
    }
  }

  // ----- One more purge

  lemma {:induction false} AncestorOf(fs: Files, root: Path, d: Path, r: Path)
    requires Closed(fs, root) && root <= d < r && r in fs
    ensures d in fs && fs[d].Folder?
    decreases |r|
  {
    var up := ParentOf(r);
    assert d == up || d < up;
    assert root < r;
    if d != up {
      AncestorOf(fs, root, d, up);
    }
  }

  /** A spared file is still there, and so is everything above it. */
  lemma SparedIsThere(fs: Files, root: Path, covered: set<Path>, emptied: set<nat>, now: Files, r: Path, d: Path)
    requires Closed(fs, root) && Remains(fs, root, covered, emptied, now)
    requires Spared(fs, root, false, r) && root < d <= r
    ensures d in fs && d in now && Spent(now[d]) == Spent(fs[d])
  {
    if d != r {
      AncestorOf(fs, root, d, r);
    }
    assert Kept(fs, root, d);
    if d !in covered {
      assert d in now;
    }
  }

  /**
    Seen from the purged directory `p`, with its item's mark, the directories of
    a file that is still there are tombstoned exactly as in the original tree.
  */
  lemma {:induction false} SameFlag(fs: Files, root: Path, now: Files, p: Path, d: Path)
    requires root < p <= d
    requires forall e | p < e <= d :: e in fs && e in now && fs[e] == now[e]
    ensures Flag(now, p, Tombstoned(fs, root, p), d) == Tombstoned(fs, root, d)
    decreases |d|
  {
    if d != p {
      var up := ParentOf(d);
      assert p <= up;
      SameFlag(fs, root, now, p, up);
    }
  }

  lemma FoldersStay(fs: Files, root: Path, covered: set<Path>, emptied: set<nat>, now: Files, r: Path)
    requires Closed(fs, root) && Remains(fs, root, covered, emptied, now) && DownClosed(fs, covered)
    requires root < r && r in fs && r in now && fs[r].Plain? && fs[r].kind == Regular
    ensures forall e | root < e < r :: e in fs && e in now && fs[e] == now[e]
  {
    forall e | root < e < r ensures e in fs && e in now && fs[e] == now[e] {
      AncestorOf(fs, root, e, r);
      if e in covered {
        assert r in covered && Kept(fs, root, r);
        var f :| f in fs && r <= f && Spared(fs, root, false, f);
        SparedIsThere(fs, root, covered, emptied, now, f, e);
      } else {
        assert now[e] == fs[e];
      }
    }
  }

  /** What the purge of a directory spares is what the tree as a whole keeps. */
  lemma SparedAlike(fs: Files, root: Path, covered: set<Path>, emptied: set<nat>, now: Files, p: Path, r: Path)
    requires Closed(fs, root) && Remains(fs, root, covered, emptied, now) && DownClosed(fs, covered)
    requires root < p < r && p in fs && fs[p].Folder?
    ensures Spared(now, p, Tombstoned(fs, root, p), r) <==> Spared(fs, root, false, r)
  {
    if r in now && r in fs && fs[r].Plain? && fs[r].kind == Regular {
      FoldersStay(fs, root, covered, emptied, now, r);
      assert p <= ParentOf(r) < r;
      SameFlag(fs, root, now, p, ParentOf(r));
    }
    if Spared(fs, root, false, r) {
      SparedIsThere(fs, root, covered, emptied, now, r, r);
    }
  }

  lemma SurvivesAlike(fs: Files, root: Path, covered: set<Path>, emptied: set<nat>, now: Files, p: Path, q: Path)
    requires Closed(fs, root) && Remains(fs, root, covered, emptied, now) && DownClosed(fs, covered)
    requires root < p <= q && p in fs && fs[p].Folder?
    ensures Survives(now, p, Tombstoned(fs, root, p), q) <==> Kept(fs, root, q)
  {
    if Survives(now, p, Tombstoned(fs, root, p), q) {
      var r :| r in now && q <= r && Spared(now, p, Tombstoned(fs, root, p), r);
      SparedAlike(fs, root, covered, emptied, now, p, r);
    }
    if Kept(fs, root, q) {
      var r :| r in fs && q <= r && Spared(fs, root, false, r);
      assert r != p;
      SparedAlike(fs, root, covered, emptied, now, p, r);
    }
  }

  /** Nothing is below a file. */
  lemma FileIsBottom(fs: Files, root: Path, p: Path)
    requires Closed(fs, root) && root < p && p in fs && fs[p].Plain?
    ensures Subtree(fs, p) == {p}
  {
    forall q <- fs.Keys | p <= q ensures q == p {
      if q != p {
        AncestorOf(fs, root, p, q);
      }
    }
  }

  /** The inodes that the purge of a directory empties are those of what its subtree keeps. */
  lemma InosAlike(fs: Files, root: Path, covered: set<Path>, emptied: set<nat>, now: Files, p: Path)
    requires Closed(fs, root) && Remains(fs, root, covered, emptied, now) && DownClosed(fs, covered)
    requires root < p && p in fs && fs[p].Folder?
    ensures KeptInos(fs, root, covered + Subtree(fs, p))
            == KeptInos(fs, root, covered) + SparedInos(now, p, Tombstoned(fs, root, p))
  {
    var union := covered + Subtree(fs, p);
    forall r | p < r ensures Spared(now, p, Tombstoned(fs, root, p), r) <==> Spared(fs, root, false, r) {
      SparedAlike(fs, root, covered, emptied, now, p, r);
    }
    forall r | Spared(now, p, Tombstoned(fs, root, p), r) ensures r in fs && fs[r].ino == now[r].ino && r in union {
      assert Spent(now[r]) == Spent(fs[r]);
    }
    forall r <- fs.Keys | r in union && Spared(fs, root, false, r)
      ensures fs[r].ino in KeptInos(fs, root, covered) + SparedInos(now, p, Tombstoned(fs, root, p))
    {
      if p <= r {
        assert r != p;
        assert Spared(now, p, Tombstoned(fs, root, p), r) && fs[r].ino == now[r].ino;
      }
    }
  }

  /** One path at or below a purged directory. */
  lemma PurgedPath(fs: Files, root: Path, covered: set<Path>, emptied: set<nat>, now: Files, after: Files,
                   p: Path, q: Path)
    requires Closed(fs, root) && Remains(fs, root, covered, emptied, now) && DownClosed(fs, covered)
    requires root < p && p in fs && p in now && fs[p].Folder?
    requires PurgeEffect(now, after, p, true, Tombstoned(fs, root, p)) && p <= q && q in fs
    ensures q in after <==> Kept(fs, root, q)
  {
    SurvivesAlike(fs, root, covered, emptied, now, p, q);
    if Kept(fs, root, q) {
      var r :| r in fs && q <= r && Spared(fs, root, false, r);
      SparedIsThere(fs, root, covered, emptied, now, r, q);
    }
  }

  lemma DirectoryDrains(fs: Files, root: Path, covered: set<Path>, emptied: set<nat>, now: Files, after: Files, p: Path)
    requires Closed(fs, root) && Remains(fs, root, covered, emptied, now) && DownClosed(fs, covered)
    requires root < p && p in fs && p in now && fs[p].Folder?
    requires PurgeEffect(now, after, p, true, Tombstoned(fs, root, p))
    ensures Drains(fs, after, KeptInos(fs, root, covered + Subtree(fs, p)) + emptied)
  {
    var kept, inos := KeptInos(fs, root, covered), SparedInos(now, p, Tombstoned(fs, root, p));
    InosAlike(fs, root, covered, emptied, now, p);
    DrainsTwice(fs, now, after, kept + emptied, inos);
    assert kept + emptied + inos == (kept + inos) + emptied;
  }

  lemma DirectoryExtends(fs: Files, root: Path, covered: set<Path>, emptied: set<nat>, now: Files, after: Files,
                         p: Path)
    requires Closed(fs, root) && Remains(fs, root, covered, emptied, now) && DownClosed(fs, covered)
    requires root < p && p in fs && p in now && fs[p].Folder?
    requires PurgeEffect(now, after, p, true, Tombstoned(fs, root, p))
    ensures Remains(fs, root, covered + Subtree(fs, p), emptied, after)
  {
    var union := covered + Subtree(fs, p);
    DirectoryDrains(fs, root, covered, emptied, now, after, p);
    forall q | q !in union ensures q in after <==> q in fs {
      assert !(p <= q) || q !in fs;
    }
    forall q | q in union && q in fs && q != [] ensures q in after <==> Stays(fs, root, union, q) {
      DirectoryPath(fs, root, covered, emptied, now, after, p, q);
    }
  }

  /** One covered path, after the purge of a directory. */
  lemma DirectoryPath(fs: Files, root: Path, covered: set<Path>, emptied: set<nat>, now: Files, after: Files,
                      p: Path, q: Path)
    requires Closed(fs, root) && Remains(fs, root, covered, emptied, now) && DownClosed(fs, covered)
    requires root < p && p in fs && p in now && fs[p].Folder?
    requires PurgeEffect(now, after, p, true, Tombstoned(fs, root, p))
    requires q in covered + Subtree(fs, p) && q in fs && q != []
    ensures q in after <==> Stays(fs, root, covered + Subtree(fs, p), q)
  {
    if p <= q {
      PurgedPath(fs, root, covered, emptied, now, after, p, q);
      if q != p {
        assert p <= ParentOf(q) && root < q;
        assert ParentOf(q) in fs && ParentOf(q) in Subtree(fs, p);
      }
    } else {
      assert !(p <= ParentOf(q));
      assert q in after <==> q in now;
    }
  }

  /** The inode that the purge of a node's item empties, when it is a tombstoned item of its own. */
  ghost function Emptied(fs: Files, root: Path, p: Path, now: Files): set<nat>
    requires p in fs && p != []
  {
    var r := TruncateTarget(now, p);
    if p in now && fs[p].Plain? && Mark(fs, root, p) && r.Some? then {now[r.value].ino} else {}
  }

  /** A lone file that is not tombstoned goes. */
  lemma UnlinkExtends(fs: Files, root: Path, covered: set<Path>, emptied: set<nat>, now: Files, after: Files, p: Path)
    requires Closed(fs, root) && Remains(fs, root, covered, emptied, now) && DownClosed(fs, covered)
    requires root < p && p in fs && p in now && fs[p].Plain? && !Mark(fs, root, p)
    requires PurgeEffect(now, after, p, false, false)
    ensures Remains(fs, root, covered + {p}, emptied, after)
  {
    LoneStays(fs, root, covered, p);
    assert !Kept(fs, root, p) && now[p].Plain?;
    DrainsTwice(fs, now, after, KeptInos(fs, root, covered) + emptied, {});
    UnkeptInos(fs, root, covered, emptied, p);
    forall q | q in covered + {p} && q in fs && q != []
      ensures q in after <==> Stays(fs, root, covered + {p}, q)
    {
      assert q in after <==> q in now && q != p;
    }
  }

  lemma UnkeptInos(fs: Files, root: Path, covered: set<Path>, emptied: set<nat>, p: Path)
    requires !Spared(fs, root, false, p)
    ensures KeptInos(fs, root, covered) + emptied + {} == KeptInos(fs, root, covered + {p}) + emptied
  {
  }

  /** A tombstoned lone file stays, and so does everything else; the inode that it leads to is emptied. */
  lemma TruncateExtends(fs: Files, root: Path, covered: set<Path>, emptied: set<nat>, now: Files, after: Files, p: Path)
    requires Closed(fs, root) && Remains(fs, root, covered, emptied, now) && DownClosed(fs, covered)
    requires root < p && p in fs && p in now && fs[p].Plain? && Mark(fs, root, p)
    requires PurgeEffect(now, after, p, false, true)
    ensures Remains(fs, root, covered + {p}, emptied + Emptied(fs, root, p, now), after)
  {
    LoneStays(fs, root, covered, p);
    assert ParentOf(p) in covered ==> p in covered;
    assert Stays(fs, root, covered + {p}, p) by {
      assert fs[p].kind == Regular ==> Spared(fs, root, false, p);
    }
    var inos := Emptied(fs, root, p, now);
    assert Truncated(now, p, false, true) == inos;
    DrainsTwice(fs, now, after, KeptInos(fs, root, covered) + emptied, inos);
    assert KeptInos(fs, root, covered) + emptied + inos == KeptInos(fs, root, covered + {p}) + (emptied + inos) by {
      LoneInos(fs, root, covered, now, p);
    }
  }

  /** A lone regular file leads to itself. */
  lemma LoneInos(fs: Files, root: Path, covered: set<Path>, now: Files, p: Path)
    requires root < p && p in fs && p in now && fs[p].Plain? && Mark(fs, root, p) && Spent(now[p]) == Spent(fs[p])
    ensures KeptInos(fs, root, covered) <= KeptInos(fs, root, covered + {p})
    ensures KeptInos(fs, root, covered + {p}) <= KeptInos(fs, root, covered) + Emptied(fs, root, p, now)
  {
    if fs[p].kind == Regular {
      assert IsFile(now, p) && TruncateTarget(now, p) == Some(p);
    }
  }

  /** Covering a lone file changes nothing for the other covered nodes. */
  lemma LoneStays(fs: Files, root: Path, covered: set<Path>, p: Path)
    requires Closed(fs, root) && root < p && p in fs && fs[p].Plain?
    ensures forall q | q in fs && q != [] :: Stays(fs, root, covered + {p}, q) <==> Stays(fs, root, covered, q)
    ensures Kept(fs, root, p) <==> Spared(fs, root, false, p)
  {
    FileIsBottom(fs, root, p);
    forall q | q in fs && q != [] ensures ParentOf(q) != p {
      assert ParentOf(q) < q;
      assert p <= q ==> q in Subtree(fs, p);
    }
    assert forall r <- fs.Keys | p <= r :: r in Subtree(fs, p);
  }

  /**
    Purging the item of any node adds the node's whole subtree to what is
    covered, whatever was purged before and in whatever order.
  */
  lemma PurgeExtends(fs: Files, root: Path, covered: set<Path>, emptied: set<nat>, now: Files, after: Files, p: Path)
    requires Closed(fs, root) && Remains(fs, root, covered, emptied, now) && DownClosed(fs, covered)
    requires root < p && p in fs
    requires PurgeEffect(now, after, p, fs[p].Folder?, Mark(fs, root, p))
    ensures Remains(fs, root, covered + Subtree(fs, p), emptied + Emptied(fs, root, p, now), after)
    ensures DownClosed(fs, covered + Subtree(fs, p))
  {
    if p !in now {
      assert p in covered;
      assert covered + Subtree(fs, p) == covered && emptied + Emptied(fs, root, p, now) == emptied;
      NothingPurged(now, after, p, fs[p].Folder?, Mark(fs, root, p));
    } else if fs[p].Folder? {
      assert emptied + Emptied(fs, root, p, now) == emptied;
      DirectoryExtends(fs, root, covered, emptied, now, after, p);
    } else {
      FileIsBottom(fs, root, p);
      if Mark(fs, root, p) {
        TruncateExtends(fs, root, covered, emptied, now, after, p);
      } else {
        assert emptied + Emptied(fs, root, p, now) == emptied;
        UnlinkExtends(fs, root, covered, emptied, now, after, p);
      }
    }
  }

  lemma NothingPurged(now: Files, after: Files, p: Path, directory: bool, tombstone: bool)
    requires p !in now && PurgeEffect(now, after, p, directory, tombstone)
    ensures after == now
  {
    assert forall q :: q in after <==> q in now;
    assert after.Keys == now.Keys;
  }

  // ----- Runs of purges

  /** One purge, by the item of the node at `p`. */
  ghost predicate Purges(fs: Files, root: Path, p: Path, now: Files, after: Files) {
    root < p && p in fs && PurgeEffect(now, after, p, fs[p].Folder?, Mark(fs, root, p))
  }

  /** `states` are the file systems between the purges of `paths`, each by its own item. */
  ghost predicate PurgeRun(fs: Files, root: Path, paths: seq<Path>, states: seq<Files>) {
    && |states| == |paths| + 1 && states[0] == fs
    && (forall p <- paths :: root < p && p in fs)
    && (forall i :: 0 <= i < |paths| ==> Purges(fs, root, paths[i], states[i], states[i + 1]))
  }

  ghost function Covered(fs: Files, paths: seq<Path>): set<Path> {
    set q <- fs.Keys | exists p <- paths :: p <= q
  }

  lemma CoveredNext(fs: Files, paths: seq<Path>, i: nat)
    requires i < |paths|
    ensures Covered(fs, paths[..i + 1]) == Covered(fs, paths[..i]) + Subtree(fs, paths[i])
  {
    assert paths[..i + 1] == paths[..i] + [paths[i]];
    forall q <- fs.Keys
      ensures q in Covered(fs, paths[..i + 1]) <==> q in Covered(fs, paths[..i]) + Subtree(fs, paths[i])
    {
      if q in Covered(fs, paths[..i]) {
        var p :| p in paths[..i] && p <= q;
        assert p in paths[..i + 1];
      }
      if q in Subtree(fs, paths[i]) {
        assert paths[i] in paths[..i + 1];
      }
    }
  }

  /** The inodes that the first `i` purges of a run emptied through the items' own paths. */
  ghost function EmptiedBy(fs: Files, root: Path, paths: seq<Path>, states: seq<Files>, i: nat): set<nat>
    requires i <= |paths| < |states| && forall p <- paths :: p in fs && p != []
    decreases i
  {
    if i == 0 then {}
    else EmptiedBy(fs, root, paths, states, i - 1) + Emptied(fs, root, paths[i - 1], states[i - 1])
  }

  /** After any purges, in any order, what is left depends only on the covered nodes and the emptied inodes. */
  lemma {:induction false} AfterPurges(fs: Files, root: Path, paths: seq<Path>, states: seq<Files>, i: nat)
    requires Closed(fs, root) && PurgeRun(fs, root, paths, states) && i <= |paths|
    ensures Remains(fs, root, Covered(fs, paths[..i]), EmptiedBy(fs, root, paths, states, i), states[i])
    ensures DownClosed(fs, Covered(fs, paths[..i]))
    decreases i
  {
    if i == 0 {
      assert Covered(fs, paths[..0]) == {};
    } else {
      var k := i - 1;
      AfterPurges(fs, root, paths, states, k);
      assert Purges(fs, root, paths[k], states[k], states[k + 1]);
      var covered := Covered(fs, paths[..k]);
      assert Covered(fs, paths[..i]) == covered + Subtree(fs, paths[k]) by {
        CoveredNext(fs, paths, k);
      }
      PurgeExtends(fs, root, covered, EmptiedBy(fs, root, paths, states, k), states[k], states[i], paths[k]);
    }
  }

  lemma AtTheEnd(fs: Files, root: Path, paths: seq<Path>, states: seq<Files>)
    requires Closed(fs, root) && PurgeRun(fs, root, paths, states)
    ensures Remains(fs, root, Covered(fs, paths), EmptiedBy(fs, root, paths, states, |paths|), states[|paths|])
    ensures forall q <- Covered(fs, paths) :: root < q
  {
    AfterPurges(fs, root, paths, states, |paths|);
    assert paths[..|paths|] == paths;
    forall q <- Covered(fs, paths) ensures root < q {
      var p :| p in paths && p <= q;
    }
  }

  lemma {:induction false} RunDwindles(fs: Files, root: Path, paths: seq<Path>, states: seq<Files>, i: nat)
    requires PurgeRun(fs, root, paths, states) && i <= |paths|
    ensures Dwindled(fs, states[i])
    decreases i
  {
    if i > 0 {
      RunDwindles(fs, root, paths, states, i - 1);
      var p := paths[i - 1];
      assert Purges(fs, root, p, states[i - 1], states[i]);
      PurgeDwindles(states[i - 1], states[i], p, fs[p].Folder?, Mark(fs, root, p));
    }
  }

  /** The node at `p` is a file that tombstoned directories hold; truncating it empties the inode `ino`. */
  ghost predicate Empties(fs: Files, root: Path, p: Path, ino: nat) {
    && p in fs && p != [] && fs[p].Plain? && Mark(fs, root, p)
    && TruncateTarget(fs, p).Some? && fs[TruncateTarget(fs, p).value].ino == ino
  }

  /** Whatever a run empties, one of its nodes led to from the start. */
  lemma {:induction false} EmptiedFrom(fs: Files, root: Path, paths: seq<Path>, states: seq<Files>, i: nat, ino: nat)
    returns (p: Path)
    requires PurgeRun(fs, root, paths, states) && i <= |paths|
    requires ino in EmptiedBy(fs, root, paths, states, i)
    ensures p in paths && Empties(fs, root, p, ino)
    decreases i
  {
    if ino in EmptiedBy(fs, root, paths, states, i - 1) {
      p := EmptiedFrom(fs, root, paths, states, i - 1, ino);
    } else {
      p := paths[i - 1];
      RunDwindles(fs, root, paths, states, i - 1);
      TargetDwindled(fs, states[i - 1], p);
      var r := TruncateTarget(fs, p).value;
      assert Spent(states[i - 1][r]) == Spent(fs[r]);
    }
  }

  /**
    No tombstoned link among the nodes leads to a file that has a name with
    contents elsewhere, unless the covered nodes have a name of it that is
    emptied anyway.
  */
  ghost predicate NoLinkOut(fs: Files, root: Path, nodes: set<Path>, covered: set<Path>) {
    forall p <- nodes, q <- fs.Keys | IsFile(fs, q) && Empties(fs, root, p, fs[q].ino) ::
      q in covered || fs[q].empty || fs[q].ino in KeptInos(fs, root, covered)
  }

  /**
    Two ways of purging that cover the same nodes leave the same entries, and
    they end in the same file system exactly when they emptied the same files
    elsewhere. They did when no tombstoned link among the nodes leads elsewhere.
  */
  lemma SameCoverSameEnd(fs: Files, root: Path, one: seq<Path>, ones: seq<Files>, other: seq<Path>, others: seq<Files>)
    requires Closed(fs, root) && PurgeRun(fs, root, one, ones) && PurgeRun(fs, root, other, others)
    requires Covered(fs, one) == Covered(fs, other)
    ensures SameEntries(ones[|one|], others[|other|])
    ensures ones[|one|] == others[|other|] <==>
              EmptiedAlike(fs, root, Covered(fs, one), EmptiedBy(fs, root, one, ones, |one|),
                           EmptiedBy(fs, root, other, others, |other|))
    ensures NoLinkOut(fs, root, Covered(fs, one), Covered(fs, one)) ==> ones[|one|] == others[|other|]
  {
    AtTheEnd(fs, root, one, ones);
    AtTheEnd(fs, root, other, others);
    var covered := Covered(fs, one);
    var first, second := EmptiedBy(fs, root, one, ones, |one|), EmptiedBy(fs, root, other, others, |other|);
    RemainsIsUnique(fs, root, covered, first, second, ones[|one|], others[|other|]);
    if NoLinkOut(fs, root, covered, covered) {
      forall q ensures !Differs(fs, root, covered, first, second, q) {
        NothingElsewhere(fs, root, one, ones, q);
        NothingElsewhere(fs, root, other, others, q);
      }
    }
  }

  /** Without links out a run empties no file with contents that it does not cover. */
  lemma NothingElsewhere(fs: Files, root: Path, paths: seq<Path>, states: seq<Files>, q: Path)
    requires PurgeRun(fs, root, paths, states) && NoLinkOut(fs, root, Covered(fs, paths), Covered(fs, paths))
    ensures IsFile(fs, q) && fs[q].ino in EmptiedBy(fs, root, paths, states, |paths|) ==>
              q in Covered(fs, paths) || fs[q].empty || fs[q].ino in KeptInos(fs, root, Covered(fs, paths))
  {
    if IsFile(fs, q) && fs[q].ino in EmptiedBy(fs, root, paths, states, |paths|) {
      var p := EmptiedFrom(fs, root, paths, states, |paths|, fs[q].ino);
      assert p <= p && p in Covered(fs, paths);
    }
  }

  // ----- Any purge can go on

  /** The file system after a purge. */
  ghost function PurgedFiles(fs: Files, p: Path, directory: bool, tombstone: bool): (after: Files)
    ensures PurgeEffect(fs, after, p, directory, tombstone)
  {
    var inos := Truncated(fs, p, directory, tombstone);
    map q | q in fs && !Removed(fs, p, directory, tombstone, q) :: Drained(fs[q], inos)
  }

  /** Purges that were begun can be carried through for the rest of the paths. */
  lemma {:induction false} CarriedThrough(fs: Files, root: Path, paths: seq<Path>, states: seq<Files>, n: nat)
    returns (all: seq<Files>)
    requires n <= |paths| && PurgeRun(fs, root, paths[..n], states)
    requires forall p <- paths :: root < p && p in fs
    ensures PurgeRun(fs, root, paths, all) && |states| == n + 1 && all[..n + 1] == states
    decreases |paths| - n
  {
    if n == |paths| {
      assert paths[..n] == paths;
      all := states;
    } else {
      var p := paths[n];
      assert p in paths;
      var next := PurgedFiles(states[n], p, fs[p].Folder?, Mark(fs, root, p));
      OneMorePurge(fs, root, paths[..n], states, p, next);
      assert paths[..n + 1] == paths[..n] + [p];
      all := CarriedThrough(fs, root, paths, states + [next], n + 1);
      assert all[..n + 1] == all[..n + 2][..n + 1] == states;
    }
  }

  lemma OneMorePurge(fs: Files, root: Path, paths: seq<Path>, states: seq<Files>, p: Path, next: Files)
    requires PurgeRun(fs, root, paths, states) && Purges(fs, root, p, states[|paths|], next)
    ensures PurgeRun(fs, root, paths + [p], states + [next])
  {
    var paths', states' := paths + [p], states + [next];
    forall i | 0 <= i < |paths'| ensures Purges(fs, root, paths'[i], states'[i], states'[i + 1]) {
      if i < |paths| {
        assert Purges(fs, root, paths[i], states[i], states[i + 1]);
      }
    }
  }

  // ----- One group item for all its nodes

  /** The purges of separate items for a node and everything in it, in any order. */
  ghost predicate EveryNode(fs: Files, root: Path, group: Path, nodes: seq<Path>, states: seq<Files>) {
    PurgeRun(fs, root, nodes, states) && forall q :: q in nodes <==> q in Subtree(fs, group)
  }

  lemma EveryNodeCovers(fs: Files, root: Path, group: Path, nodes: seq<Path>, states: seq<Files>)
    requires group in fs && EveryNode(fs, root, group, nodes, states)
    ensures Covered(fs, nodes) == Covered(fs, [group]) == Subtree(fs, group)
  {
    assert group in [group] && group in Subtree(fs, group);
  }

  /** The inode that the purge of a lone node empties is among those emptied by a run that begins there. */
  lemma {:induction false} EmptiedStay(fs: Files, root: Path, paths: seq<Path>, states: seq<Files>, i: nat, ino: nat)
    requires PurgeRun(fs, root, paths, states) && 0 < i <= |paths| && Empties(fs, root, paths[0], ino)
    ensures ino in EmptiedBy(fs, root, paths, states, i)
    decreases i
  {
    if i > 1 {
      EmptiedStay(fs, root, paths, states, i - 1, ino);
    } else {
      assert EmptiedBy(fs, root, paths, states, 0) == {};
    }
  }

  lemma {:induction false} Listed(all: set<Path>) returns (paths: seq<Path>)
    ensures forall q :: q in paths <==> q in all
    decreases all
  {
    if exists q :: q in all {
      var q :| q in all;
      var rest := Listed(all - {q});
      paths := [q] + rest;
    } else {
      paths := [];
    }
  }

  /** Purging begins with the given node, and all others of the group follow. */
  lemma EveryNodeFrom(fs: Files, root: Path, group: Path, p: Path) returns (nodes: seq<Path>, states: seq<Files>)
    requires root < group && p in Subtree(fs, group)
    ensures EveryNode(fs, root, group, nodes, states) && nodes != [] && nodes[0] == p
  {
    var rest := Listed(Subtree(fs, group));
    nodes := [p] + rest;
    forall q <- nodes ensures root < q && q in fs {
      assert q in Subtree(fs, group);
    }
    states := CarriedThrough(fs, root, nodes, [fs], 0);
  }

  /** A tombstoned link out of a directory shows the difference: purged first, it empties the file. */
  lemma LinkOutShows(fs: Files, root: Path, group: Path, grouped: seq<Files>, p: Path, q: Path)
    returns (nodes: seq<Path>, states: seq<Files>)
    requires Closed(fs, root) && PurgeRun(fs, root, [group], grouped)
    requires p in Subtree(fs, group) && p != group && IsFile(fs, q) && Empties(fs, root, p, fs[q].ino)
    requires q !in Subtree(fs, group) && fs[q].ino !in KeptInos(fs, root, Subtree(fs, group))
    ensures EveryNode(fs, root, group, nodes, states)
    ensures q in grouped[1] && grouped[1][q] == fs[q]
    ensures q in states[|nodes|] && states[|nodes|][q] == Spent(fs[q])
  {
    assert group in [group];
    nodes, states := EveryNodeFrom(fs, root, group, p);
    EveryNodeCovers(fs, root, group, nodes, states);
    AtTheEnd(fs, root, nodes, states);
    EmptiedStay(fs, root, nodes, states, |nodes|, fs[q].ino);
    AncestorOf(fs, root, group, p);
    GroupLeaves(fs, root, group, grouped, q);
  }

  /** A group empties only the inodes of the regular files that it keeps. */
  lemma GroupLeaves(fs: Files, root: Path, group: Path, grouped: seq<Files>, q: Path)
    requires Closed(fs, root) && PurgeRun(fs, root, [group], grouped) && group in fs && fs[group].Folder?
    requires q in fs && q !in Subtree(fs, group) && IsFile(fs, q)
    requires fs[q].ino !in KeptInos(fs, root, Subtree(fs, group))
    ensures q in grouped[1] && grouped[1][q] == fs[q]
  {
    AtTheEnd(fs, root, [group], grouped);
    assert Covered(fs, [group]) == Subtree(fs, group) by {
      assert group in [group];
    }
    assert EmptiedBy(fs, root, [group], grouped, 0) == {};
    assert EmptiedBy(fs, root, [group], grouped, 1) == {};
  }

  /** A file elsewhere is emptied only by the item of the group's own path, when that is a link. */
  lemma OnlyTheGroup(fs: Files, root: Path, group: Path, nodes: seq<Path>, states: seq<Files>, q: Path)
    requires Closed(fs, root) && PurgeRun(fs, root, nodes, states) && root < group && group in fs
    requires group in nodes && forall p <- nodes :: p in Subtree(fs, group)
    requires NoLinkOut(fs, root, Subtree(fs, group) - {group}, Subtree(fs, group))
    requires IsFile(fs, q) && !fs[q].empty && q !in Subtree(fs, group)
    requires fs[q].ino !in KeptInos(fs, root, Subtree(fs, group))
    ensures fs[q].ino in EmptiedBy(fs, root, nodes, states, |nodes|) <==> Empties(fs, root, group, fs[q].ino)
  {
    var ino := fs[q].ino;
    if ino in EmptiedBy(fs, root, nodes, states, |nodes|) {
      var p := EmptiedFrom(fs, root, nodes, states, |nodes|, ino);
      assert p in Subtree(fs, group);
      assert p == group || p in Subtree(fs, group) - {group};
    }
    if Empties(fs, root, group, ino) {
      FileIsBottom(fs, root, group);
      assert nodes[0] in nodes;
      EmptiedStay(fs, root, nodes, states, |nodes|, ino);
    }
  }

  lemma NoLinkOutSame(fs: Files, root: Path, group: Path, grouped: seq<Files>, nodes: seq<Path>, states: seq<Files>)
    requires Closed(fs, root) && PurgeRun(fs, root, [group], grouped)
    requires NoLinkOut(fs, root, Subtree(fs, group) - {group}, Subtree(fs, group))
    requires EveryNode(fs, root, group, nodes, states)
    ensures states[|nodes|] == grouped[1]
  {
    assert group in [group];
    EveryNodeCovers(fs, root, group, nodes, states);
    SameCoverSameEnd(fs, root, nodes, states, [group], grouped);
    NodesEmptyAlike(fs, root, group, grouped, nodes, states);
  }

  lemma NodesEmptyAlike(fs: Files, root: Path, group: Path, grouped: seq<Files>, nodes: seq<Path>, states: seq<Files>)
    requires Closed(fs, root) && PurgeRun(fs, root, [group], grouped) && group in fs
    requires NoLinkOut(fs, root, Subtree(fs, group) - {group}, Subtree(fs, group))
    requires EveryNode(fs, root, group, nodes, states)
    ensures EmptiedAlike(fs, root, Subtree(fs, group), EmptiedBy(fs, root, nodes, states, |nodes|),
                         EmptiedBy(fs, root, [group], grouped, 1))
  {
    var many, one := EmptiedBy(fs, root, nodes, states, |nodes|), EmptiedBy(fs, root, [group], grouped, 1);
    assert group in [group];
    forall q ensures !Differs(fs, root, Subtree(fs, group), many, one, q) {
      if IsFile(fs, q) && !fs[q].empty && q !in Subtree(fs, group)
         && fs[q].ino !in KeptInos(fs, root, Subtree(fs, group)) {
        OnlyTheGroup(fs, root, group, nodes, states, q);
        OnlyTheGroup(fs, root, group, [group], grouped, q);
      }
    }
  }

  /**
    One group item for a directory does what separate items for the directory
    and every node in it do, children first or in any other order, exactly when
    no tombstoned link in it leads to a file that has a name with contents
    outside it and no name in one of its tombstoned directories.
  */
  lemma GroupIsEveryNode(fs: Files, root: Path, group: Path, grouped: seq<Files>)
    requires Closed(fs, root) && PurgeRun(fs, root, [group], grouped)
    ensures (forall nodes, states | EveryNode(fs, root, group, nodes, states) :: states[|nodes|] == grouped[1])
            <==> NoLinkOut(fs, root, Subtree(fs, group) - {group}, Subtree(fs, group))
  {
    var inside, all := Subtree(fs, group) - {group}, Subtree(fs, group);
    if NoLinkOut(fs, root, inside, all) {
      forall nodes, states | EveryNode(fs, root, group, nodes, states) ensures states[|nodes|] == grouped[1] {
        NoLinkOutSame(fs, root, group, grouped, nodes, states);
      }
    } else {
      var p, q :| p in inside && q in fs && IsFile(fs, q) && Empties(fs, root, p, fs[q].ino)
                  && !(q in all || fs[q].empty || fs[q].ino in KeptInos(fs, root, all));
      var nodes, states := LinkOutShows(fs, root, group, grouped, p, q);
    }
  }

  /** One link in a tombstoned directory `g`, to a file outside. */
  ghost function LinkOutFiles(): Files {
    map[[] := Folder(false), ["g"] := Folder(true), ["f"] := Plain(Regular, false, NO_LINK, 1),
        ["g", "l"] := Plain(Symlink, false, Link(true, ["f"]), 2)]
  }

  /** An input on which the two differ: the group leaves the file `f` alone, separate items empty it. */
  lemma LinkOutExample() returns (grouped: seq<Files>, nodes: seq<Path>, states: seq<Files>)
    ensures Closed(LinkOutFiles(), []) && PurgeRun(LinkOutFiles(), [], [["g"]], grouped)
    ensures EveryNode(LinkOutFiles(), [], ["g"], nodes, states)
    ensures ["f"] in grouped[1] && grouped[1][["f"]] == Plain(Regular, false, NO_LINK, 1)
    ensures ["f"] in states[|nodes|] && states[|nodes|][["f"]] == Plain(Regular, true, NO_LINK, 1)
  {
    var fs, g := LinkOutFiles(), ["g"];
    LinkLeadsOut();
    assert ParentOf(["g", "l"]) == g && ParentOf(g) == [] && ParentOf(["f"]) == [];
    assert !(g <= ["f"]) && g <= ["g", "l"];
    assert !IsFile(fs, g) && !IsFile(fs, ["g", "l"]);
    assert Subtree(fs, g) == {g, ["g", "l"]};
    assert KeptInos(fs, [], Subtree(fs, g)) == {};
    var after := PurgedFiles(fs, g, true, Mark(fs, [], g));
    grouped := [fs, after];
    assert Purges(fs, [], [g][0], grouped[0], grouped[1]);
    nodes, states := LinkOutShows(fs, [], g, grouped, ["g", "l"], ["f"]);
  }

  lemma LinkLeadsOut()
    ensures Empties(LinkOutFiles(), [], ["g", "l"], 1)
  {
    var fs, l := LinkOutFiles(), ["g", "l"];
    assert ParentOf(l) == ["g"] && ParentOf(["g"]) == [];
    assert Reach(fs, l, [], MAX_LINKS) == Resolve(fs, [], ["f"] + [], MAX_LINKS - 1);
    assert Resolve(fs, [], ["f"], MAX_LINKS - 1) == Reach(fs, [] + ["f"], [], MAX_LINKS - 1);
    assert [] + ["f"] == ["f"] && ["f"] + [] == ["f"];
    assert Reach(fs, ["f"], [], MAX_LINKS - 1) == Some(["f"]);
  }
}
