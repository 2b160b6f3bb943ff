/**
  `freeCache`: trackers are created for the owners of the data directories,
  measured and queued, and the bounce loop purges items until there is enough
  space. The loop, over the tracker objects and the heap, is shown to make a run
  of the Bounce machine, so everything proved of runs holds of it.
*/
module FreeCache {
  import opened Wrappers
  import opened Fts
  import opened CacheItems
  import opened PurgeOrder
  import opened SeenTrees
  import opened CacheTrackers
  import opened TrackerQueues
  import Bounce
  import G = GroupPurge
  import L = PurgeLocality
  import Listing
  import P = Purge
  import PurgeSafety

  // ----- The data directories: the directories directly below the user roots

  datatype DataDir = DataDir(path: Path, owner: int)

  /** Which UID a directory with this (uid, gid) is tracked for. */
  type OwnerOf = (int, int) -> int

  function Step(owner: OwnerOf): (seq<DataDir>, Entry) -> (seq<DataDir>, bool) {
    (dirs: seq<DataDir>, p: Entry) =>
      if p.info == FTS_D && p.level == 1 then
        (dirs + [DataDir(p.path, owner(p.node.stat.uid, p.node.stat.gid))], true)
      else (dirs, false)
  }

  function DirAt(owner: OwnerOf, n: Node, path: Path): seq<DataDir> {
    if n.Dir? then [DataDir(path, owner(n.stat.uid, n.stat.gid))] else []
  }

  function DirsAmong(owner: OwnerOf, children: seq<Node>, path: Path): seq<DataDir> {
    if children == [] then []
    else DirAt(owner, children[0], path + [children[0].name]) + DirsAmong(owner, children[1..], path)
  }

  function DirsOf(owner: OwnerOf, root: Node, path: Path): seq<DataDir> {
    if root.Dir? then DirsAmong(owner, root.children, path) else []
  }

  lemma WalkChild(owner: OwnerOf, n: Node, path: Path, parent: Stat, dirs: seq<DataDir>)
    ensures Run(Step(owner), [Enter(n, path, 1, parent)], dirs) == dirs + DirAt(owner, n, path)
  {
    if n.Dir? {
      RunDir(Step(owner), Enter(n, path, 1, parent), dirs);
    } else {
      RunLeaf(Step(owner), Enter(n, path, 1, parent), dirs);
      assert dirs + [] == dirs;
    }
  }

  lemma {:induction false} WalkChildren(owner: OwnerOf, children: seq<Node>, path: Path, parent: Stat,
                                        dirs: seq<DataDir>)
    ensures Run(Step(owner), ChildWork(children, path, 0, parent), dirs) == dirs + DirsAmong(owner, children, path)
  {
    if children == [] {
      assert dirs + [] == dirs;
    } else {
      var below := path + [children[0].name];
      var found := DirAt(owner, children[0], below);
      RunChildren(Step(owner), children, path, 0, parent, dirs);
      WalkChild(owner, children[0], below, parent, dirs);
      WalkChildren(owner, children[1..], path, parent, dirs + found);
      Regroup(dirs, found, DirsAmong(owner, children[1..], path));
    }
  }

  /** The walk finds the directories at depth one, and no others. */
  lemma WalkFindsDirs(owner: OwnerOf, root: Node, path: Path, dirs: seq<DataDir>)
    ensures Run(Step(owner), [Enter(root, path, 0, root.stat)], dirs) == dirs + DirsOf(owner, root, path)
  {
    var w := Enter(root, path, 0, root.stat);
    if root.Dir? {
      RunDir(Step(owner), w, dirs);
      WalkChildren(owner, root.children, path, root.stat, dirs);
    } else {
      RunLeaf(Step(owner), w, dirs);
    }
  }

  // ----- One tracker per owner

  function QuotaFor(quotas: map<int, int>, uid: int): int {
    if uid in quotas && quotas[uid] != 0 then quotas[uid] else Bounce.DEFAULT_QUOTA
  }

  /** The paths of every owner's data directories, in the order they were found. */
  type DataPaths = map<int, seq<Path>>

  function AddDir(paths: DataPaths, dir: DataDir): DataPaths {
    paths[dir.owner := (if dir.owner in paths then paths[dir.owner] else []) + [dir.path]]
  }

  function Grouped(dirs: seq<DataDir>): DataPaths {
    if dirs == [] then map[] else AddDir(Grouped(dirs[..|dirs| - 1]), dirs[|dirs| - 1])
  }

  /** Every owner's paths are the paths of the owner's directories, and nothing else. */
  lemma {:induction false} GroupedByOwner(dirs: seq<DataDir>, uid: int)
    ensures uid in Grouped(dirs) <==> exists d <- dirs :: d.owner == uid
    ensures uid in Grouped(dirs) ==> Grouped(dirs)[uid] == PathsOf(dirs, uid)
    ensures uid !in Grouped(dirs) ==> PathsOf(dirs, uid) == []
  {
    if dirs != [] {
      var last := |dirs| - 1;
      assert dirs == dirs[..last] + [dirs[last]];
      GroupedByOwner(dirs[..last], uid);
    }
  }

  function PathsOf(dirs: seq<DataDir>, uid: int): seq<Path> {
    if dirs == [] then []
    else
      var last := |dirs| - 1;
      PathsOf(dirs[..last], uid) + (if dirs[last].owner == uid then [dirs[last].path] else [])
  }

  ghost predicate Created(trackers: map<int, CacheTracker>, paths: DataPaths, quotas: map<int, int>)
    reads trackers.Values
  {
    && trackers.Keys == paths.Keys
    && (forall u <- trackers.Keys :: IsNew(trackers[u], u, paths[u], QuotaFor(quotas, u)))
  }

  ghost predicate IsNew(t: CacheTracker, uid: int, paths: seq<Path>, quota: int)
    reads t
  {
    t.uid == uid && t.dataPaths == paths && t.cacheQuota == quota && !t.itemsLoaded
  }

  method FindTracker(trackers: map<int, CacheTracker>, dir: DataDir, ghost paths: DataPaths, quotas: map<int, int>)
    returns (r: map<int, CacheTracker>)
    requires Created(trackers, paths, quotas)
    modifies trackers.Values
    ensures Created(r, AddDir(paths, dir), quotas)
    ensures fresh(r.Values - trackers.Values)
  {
    r := trackers;
    if dir.owner in trackers {
      trackers[dir.owner].AddDataPath(dir.path);
    } else {
      var tracker := new CacheTracker(dir.owner);
      tracker.AddDataPath(dir.path);
      tracker.cacheQuota := if dir.owner in quotas then quotas[dir.owner] else 0;
      if tracker.cacheQuota == 0 {
        tracker.cacheQuota := 67108864;
      }
      r := trackers[dir.owner := tracker];
    }
    forall u <- r.Keys ensures IsNew(r[u], u, AddDir(paths, dir)[u], QuotaFor(quotas, u)) {
      if u in trackers {
        assert old(IsNew(trackers[u], u, paths[u], QuotaFor(quotas, u)));
      }
    }
  }

  /** The loop body for one entry: a directory at depth one is tracked, and not entered. */
  method TrackEntry(fts: Walk, e: Entry, trackers: map<int, CacheTracker>, owner: OwnerOf,
                    ghost dirs: seq<DataDir>, quotas: map<int, int>)
    returns (r: map<int, CacheTracker>, ghost dirs': seq<DataDir>)
    requires Created(trackers, Grouped(dirs), quotas) && !fts.skip
    modifies fts`skip, trackers.Values
    ensures Created(r, Grouped(dirs'), quotas) && fresh(r.Values - trackers.Values)
    ensures Step(owner)(dirs, e) == (dirs', fts.skip)
  {
    r, dirs' := trackers, dirs;
    if e.info == FTS_D && e.level == 1 {
      var dir := DataDir(e.path, owner(e.node.stat.uid, e.node.stat.gid));
      r := FindTracker(trackers, dir, Grouped(dirs), quotas);
      dirs' := dirs + [dir];
      assert dirs'[..|dirs|] == dirs;
      fts.Skip();
    }
  }

  /** One turn of the loop: tracks the entry that was read and reads the next one. */
  method TrackNext(fts: Walk, e: Entry, trackers: map<int, CacheTracker>, owner: OwnerOf,
                   ghost dirs: seq<DataDir>, quotas: map<int, int>)
    returns (r: map<int, CacheTracker>, next: Option<Entry>, ghost dirs': seq<DataDir>)
    requires Created(trackers, Grouped(dirs), quotas)
    requires fts.started && !fts.skip && fts.work != [] && e == Report(fts.work[0])
    modifies fts, trackers.Values
    ensures Created(r, Grouped(dirs'), quotas) && fresh(r.Values - trackers.Values)
    ensures fts.started && !fts.skip && Pending(fts.work) < Pending(old(fts.work))
    ensures next == if fts.work == [] then None else Some(Report(fts.work[0]))
    ensures Run(Step(owner), fts.work, dirs') == Run(Step(owner), old(fts.work), dirs)
  {
    r, dirs' := TrackEntry(fts, e, trackers, owner, dirs, quotas);
    RunStep(Step(owner), fts.work, dirs, dirs', fts.skip);
    next := fts.Read();
  }

  function DirsOfRoots(owner: OwnerOf, roots: seq<Root>): seq<DataDir> {
    if roots == [] then [] else DirsOf(owner, roots[0].0, roots[0].1) + DirsOfRoots(owner, roots[1..])
  }

  lemma {:induction false} WalkFindsAll(owner: OwnerOf, roots: seq<Root>, dirs: seq<DataDir>)
    ensures Run(Step(owner), RootWork(roots), dirs) == dirs + DirsOfRoots(owner, roots)
  {
    if roots == [] {
      assert dirs + [] == dirs;
    } else {
      var first := Enter(roots[0].0, roots[0].1, 0, roots[0].0.stat);
      var found := DirsOf(owner, roots[0].0, roots[0].1);
      RunSplit(Step(owner), [first], RootWork(roots[1..]), dirs);
      WalkFindsDirs(owner, roots[0].0, roots[0].1, dirs);
      WalkFindsAll(owner, roots[1..], dirs + found);
      Regroup(dirs, found, DirsOfRoots(owner, roots[1..]));
    }
  }

  /** Walks one user's roots and gives every data directory to its owner's tracker. */
  method TrackRoots(trackers: map<int, CacheTracker>, roots: seq<Root>, owner: OwnerOf,
                    ghost dirs: seq<DataDir>, quotas: map<int, int>) returns (r: map<int, CacheTracker>)
    requires Created(trackers, Grouped(dirs), quotas)
    modifies trackers.Values
    ensures Created(r, Grouped(dirs + DirsOfRoots(owner, roots)), quotas)
    ensures fresh(r.Values - trackers.Values)
  {
    r := trackers;
    ghost var found, end := dirs, dirs + DirsOfRoots(owner, roots);
    WalkFindsAll(owner, roots, dirs);
    var fts := new Walk.Of(roots);
    var p := fts.Read();
    while p.Some?
      invariant fresh(fts) && fts.started && !fts.skip
      invariant p == if fts.work == [] then None else Some(Report(fts.work[0]))
      invariant Created(r, Grouped(found), quotas)
      invariant fresh(r.Values - trackers.Values)
      invariant Run(Step(owner), fts.work, found) == end
      decreases Pending(fts.work)
    {
      r, p, found := TrackNext(fts, p.value, r, owner, found, quotas);
    }
    assert found == end;
  }

  function AllDirs(owner: OwnerOf, users: seq<User>): seq<DataDir> {
    if users == [] then [] else DirsOfRoots(owner, users[0].roots) + AllDirs(owner, users[1..])
  }

  /** The directories that remain to be found, with one more user's found. */
  lemma NextDirs(owner: OwnerOf, users: seq<User>, n: nat, dirs: seq<DataDir>)
    requires n < |users|
    ensures (dirs + DirsOfRoots(owner, users[n].roots)) + AllDirs(owner, users[n + 1..])
            == dirs + AllDirs(owner, users[n..])
  {
    assert users[n..][0] == users[n] && users[n..][1..] == users[n + 1..];
    Regroup(dirs, DirsOfRoots(owner, users[n].roots), AllDirs(owner, users[n + 1..]));
  }

  /**
    One tracker for every owner of a data directory of any user; it fails when
    the walk over some user's directories cannot be opened.
  */
  method CreateTrackers(users: seq<User>, owner: OwnerOf, quotas: map<int, int>)
    returns (ok: bool, trackers: map<int, CacheTracker>)
    ensures ok <==> AllOpen(users)
    ensures ok ==> Created(trackers, Grouped(AllDirs(owner, users)), quotas)
    ensures ok ==> forall u <- trackers.Keys ::
                     trackers[u].cacheQuota == if u in quotas && quotas[u] != 0 then quotas[u] else 67108864
    ensures fresh(trackers.Values)
  {
    trackers := map[];
    ghost var dirs, end := [], AllDirs(owner, users);
    assert [] + end == end;
    for n := 0 to |users|
      invariant forall i :: 0 <= i < n ==> users[i].opens
      invariant dirs + AllDirs(owner, users[n..]) == end
      invariant Created(trackers, Grouped(dirs), quotas) && fresh(trackers.Values)
    {
      if !users[n].opens {
        return false, trackers;
      }
      NextDirs(owner, users, n, dirs);
      trackers := TrackRoots(trackers, users[n].roots, owner, dirs, quotas);
      dirs := dirs + DirsOfRoots(owner, users[n].roots);
    }
    ok := true;
    assert dirs + [] == dirs;
  }

  // ----- The loop state as a state of the machine

  /** A tracker's value; items not loaded yet are those that loading will give. */
  ghost function ValueOf(device: Device, t: CacheTracker): Bounce.Tracker
    reads t, t.items
  {
    Bounce.Tracker(t.cacheUsed, t.cacheQuota, t.itemsLoaded,
                   if t.itemsLoaded then Views(t.items) else LoadedItems(device, t.dataPaths))
  }

  ghost predicate Stands(x: Call, t: CacheTracker, uid: int, v: Bounce.Tracker)
    reads t, t.items
  {
    && t.uid == uid && uid in x.paths && t.dataPaths == x.paths[uid] && ValueOf(x.device, t) == v
    && (t.itemsLoaded ==> forall item <- t.items :: item.Linked())
  }

  ghost function Chosen(trackers: map<int, CacheTracker>, uids: set<int>): set<CacheTracker>
    requires uids <= trackers.Keys
  {
    set u <- uids :: trackers[u]
  }

  /** The active tracker and the queue, as UIDs of the trackers there are. */
  ghost predicate Placed(trackers: map<int, CacheTracker>, active: CacheTracker?, queue: TrackerQueue, s: Bounce.State)
    reads queue, queue.elems
  {
    && Bounce.Known(s) && s.trackers.Keys == trackers.Keys
    && (forall u <- trackers.Keys :: trackers[u].uid == u)
    && s.active == (if active == null then None else Some(active.uid))
    && (active != null ==> trackers[active.uid] == active)
    && queue.Valid() && multiset(queue.elems) == multiset(Chosen(trackers, s.queue))
  }

  /** The value of an owner's tracker when the bounce loop starts. */
  ghost function StartOf(device: Device, uid: int, paths: seq<Path>, quota: int): Bounce.Tracker {
    Bounce.Tracker(StatsOf(device, uid, paths), quota, false, LoadedItems(device, paths))
  }

  ghost function StartValues(device: Device, paths: DataPaths, quotas: map<int, int>): Bounce.Trackers {
    map u | u in paths :: StartOf(device, u, paths[u], QuotaFor(quotas, u))
  }

  lemma ChosenNext(trackers: map<int, CacheTracker>, done: set<int>, u: int)
    requires done <= trackers.Keys && u in trackers && u !in done
    requires forall v <- trackers.Keys :: trackers[v].uid == v
    ensures trackers[u] !in Chosen(trackers, done)
    ensures multiset(Chosen(trackers, done + {u})) == multiset(Chosen(trackers, done)) + multiset{trackers[u]}
  {
    assert Chosen(trackers, done + {u}) == Chosen(trackers, done) + {trackers[u]};
  }

  ghost function UsedBySome(device: Device, paths: DataPaths, uids: set<int>): map<int, int>
    requires uids <= paths.Keys
  {
    map u | u in uids :: StatsOf(device, u, paths[u])
  }

  lemma UsedNext(device: Device, paths: DataPaths, done: set<int>, u: int)
    requires done <= paths.Keys && u in paths && u !in done
    ensures Bounce.Sum(UsedBySome(device, paths, done + {u}))
            == Bounce.Sum(UsedBySome(device, paths, done)) + StatsOf(device, u, paths[u])
  {
    Bounce.SumRemove(UsedBySome(device, paths, done + {u}), u);
    assert UsedBySome(device, paths, done + {u}) - {u} == UsedBySome(device, paths, done);
  }

  /** Measures one tracker, and changes nothing else about it. */
  method Measure(device: Device, trackers: map<int, CacheTracker>, u: int, ghost paths: DataPaths,
                 ghost quotas: map<int, int>)
    requires Created(trackers, paths, quotas) && u in trackers
    modifies var t: CacheTracker := trackers[u]; t`cacheUsed
    ensures Created(trackers, paths, quotas)
    ensures trackers[u].cacheUsed == StatsOf(device, u, paths[u])
  {
    assert IsNew(trackers[u], u, paths[u], QuotaFor(quotas, u));
    trackers[u].LoadStats(device);
    forall v <- trackers.Keys ensures IsNew(trackers[v], v, paths[v], QuotaFor(quotas, v)) {
      assert old(IsNew(trackers[v], v, paths[v], QuotaFor(quotas, v)));
    }
  }

  ghost predicate Populated(device: Device, trackers: map<int, CacheTracker>, paths: DataPaths, quotas: map<int, int>,
                            queue: TrackerQueue, done: set<int>)
    reads trackers.Values, queue, queue.elems
  {
    && Created(trackers, paths, quotas) && done <= trackers.Keys
    && (forall u <- done :: trackers[u].cacheUsed == StatsOf(device, u, paths[u]))
    && queue.Valid() && multiset(queue.elems) == multiset(Chosen(trackers, done))
  }

  /** Measures one tracker and queues it. */
  method PopulateOne(device: Device, trackers: map<int, CacheTracker>, ghost paths: DataPaths,
                     ghost quotas: map<int, int>, queue: TrackerQueue, ghost done: set<int>, u: int)
    requires Populated(device, trackers, paths, quotas, queue, done) && u in trackers && u !in done
    modifies queue, trackers.Values
    ensures Populated(device, trackers, paths, quotas, queue, done + {u})
  {
    assert forall v <- trackers.Keys :: IsNew(trackers[v], v, paths[v], QuotaFor(quotas, v));
    ChosenNext(trackers, done, u);
    NotQueued(queue.elems, Chosen(trackers, done), trackers[u]);
    Measure(device, trackers, u, paths, quotas);
    queue.Push(trackers[u]);
  }

  /** Measures one more tracker, queues it and adds what it uses to the total. */
  method PopulateNext(device: Device, trackers: map<int, CacheTracker>, ghost paths: DataPaths,
                      ghost quotas: map<int, int>, queue: TrackerQueue, ghost done: set<int>, u: int, total: int)
    returns (total': int)
    requires Populated(device, trackers, paths, quotas, queue, done) && u in trackers && u !in done
    requires total == Bounce.Sum(UsedBySome(device, paths, done))
    modifies queue, trackers.Values
    ensures Populated(device, trackers, paths, quotas, queue, done + {u})
    ensures total' == Bounce.Sum(UsedBySome(device, paths, done + {u}))
  {
    UsedNext(device, paths, done, u);
    PopulateOne(device, trackers, paths, quotas, queue, done, u);
    assert u in done + {u};
    total' := total + trackers[u].cacheUsed;
  }

  /** Measures every tracker and queues it; `total` is what all caches use together. */
  method Populate(device: Device, trackers: map<int, CacheTracker>, ghost paths: DataPaths, ghost quotas: map<int, int>,
                  queue: TrackerQueue) returns (total: int)
    requires queue.elems == [] && Created(trackers, paths, quotas)
    modifies queue, trackers.Values
    ensures Populated(device, trackers, paths, quotas, queue, trackers.Keys)
    ensures total == Bounce.Sum(Bounce.UsedMap(StartValues(device, paths, quotas)))
  {
    total := 0;
    var done: set<int> := {};
    assert Chosen(trackers, done) == {};
    while exists u :: u in trackers.Keys - done
      invariant Populated(device, trackers, paths, quotas, queue, done)
      invariant total == Bounce.Sum(UsedBySome(device, paths, done))
      decreases trackers.Keys - done
    {
      var u :| u in trackers.Keys - done;
      total := PopulateNext(device, trackers, paths, quotas, queue, done, u, total);
      done := done + {u};
    }
    NothingLeft(trackers.Keys, done);
    UsedByAll(device, paths, quotas);
  }

  lemma NothingLeft(all: set<int>, done: set<int>)
    requires done <= all && !exists u :: u in all - done
    ensures done == all
  {
    forall u <- all ensures u in done {
      assert u in all - done || u in done;
    }
  }

  lemma UsedByAll(device: Device, paths: DataPaths, quotas: map<int, int>)
    ensures UsedBySome(device, paths, paths.Keys) == Bounce.UsedMap(StartValues(device, paths, quotas))
  {
  }

  lemma NotQueued(elems: seq<CacheTracker>, queued: set<CacheTracker>, t: CacheTracker)
    requires multiset(elems) == multiset(queued) && t !in queued
    ensures t !in elems
  {
    assert t !in multiset(elems);
  }

  // ----- The file system under the loop

  /** The items are for files and directories as `files` has them, as far as they are still there. */
  ghost predicate Fits(files: P.Files, items: seq<Item>) {
    forall item <- items ::
      item.path != [] && (item.path in files ==> (item.directory <==> files[item.path].Folder?))
  }

  /** One call: the device, the file system at its start, every owner's data paths, and whether to change nothing. */
  datatype Call = Call(device: Device, start: P.Files, paths: DataPaths, noop: bool)

  /** A tracker's items fit the file system; those not loaded yet are what loading found at the start. */
  ghost predicate TrackerFits(x: Call, files: P.Files, u: int, t: Bounce.Tracker) {
    Fits(files, t.items) && (!t.loaded ==> u in x.paths && t.items == LoadedItems(x.device, x.paths[u]))
  }

  ghost predicate DiskFits(x: Call, files: P.Files, s: Bounce.State) {
    && G.Closed(files, []) && P.Dwindled(x.start, files) && Shows(x.device, x.start)
    && forall u <- s.trackers.Keys :: TrackerFits(x, files, u, s.trackers[u])
  }

  ghost predicate ItemPurged(v: Item, before: P.Files, after: P.Files, noop: bool) {
    if noop then after == before else P.PurgeEffect(before, after, v.path, v.directory, v.tombstone)
  }

  /** The item a purge in state `s` takes. */
  ghost predicate Takes(s: Bounce.State, item: Item) {
    && s.active.Some? && s.active.value in s.trackers
    && var items := s.trackers[s.active.value].items;
       items != [] && item == items[|items| - 1]
  }

  /** A tracker that becomes active for the first time loads what there is at that moment. */
  ghost predicate Loads(x: Call, s: Bounce.State, m: Bounce.Move, now: P.Files) {
    m.Swap? && m.uid in s.trackers && !s.trackers[m.uid].loaded ==>
      m.uid in x.paths && m.items == LoadedItems(Seen(x.device, x.start, now), x.paths[m.uid])
  }

  /** What a move of the loop does to the file system: a purge purges its item, unless told not to. */
  ghost predicate DiskStep(x: Call, s: Bounce.State, m: Bounce.Move, before: P.Files, after: P.Files) {
    && Loads(x, s, m, before)
    && if m.Take? then exists item :: Takes(s, item) && ItemPurged(item, before, after, x.noop) else after == before
  }

  /** Purges one item; for a directory, with the listing that the walk finds. */
  method PurgeItem(fs: FileSystem, item: CacheItem, noop: bool)
    requires G.Closed(fs.files, []) && item.Linked() && Fits(fs.files, [item.View()])
    modifies fs
    ensures ItemPurged(item.View(), old(fs.files), fs.files, noop)
  {
    assert item.View() in [item.View()];
    if !noop {
      var path := item.BuildPath();
      var listing := None;
      if item.directory && path in fs.files {
        var tree := Listing.ListTree(fs.files, path);
        listing := Some(tree);
      }
      var _ := item.Purge(fs, listing);
    }
  }

  lemma FitsOne(files: P.Files, items: seq<Item>, item: Item)
    requires Fits(files, items) && item in items
    ensures Fits(files, [item]) && item.path != []
  {
  }

  lemma FitsAfter(before: P.Files, after: P.Files, items: seq<Item>)
    requires Fits(before, items) && P.Dwindled(before, after)
    ensures Fits(after, items)
  {
  }

  lemma FitsFewer(files: P.Files, items: seq<Item>, fewer: seq<Item>)
    requires Fits(files, items) && fewer <= items
    ensures Fits(files, fewer)
  {
  }

  /** After a move the remaining items still fit the file system. */
  lemma StepFits(x: Call, c: Bounce.Config, s: Bounce.State, m: Bounce.Move, s': Bounce.State,
                 before: P.Files, after: P.Files)
    requires Bounce.Next(c, s, m, s') && Bounce.Inv(c, s)
    requires DiskFits(x, before, s) && DiskStep(x, s, m, before, after)
    ensures DiskFits(x, after, s')
  {
    AfterStep(x, s, m, before, after);
    forall u <- s'.trackers.Keys ensures TrackerFits(x, after, u, s'.trackers[u]) {
      assert TrackerFits(x, before, u, s.trackers[u]);
      if m.Swap? && m.uid == u && !s.trackers[u].loaded {
        SeenShows(x.device, x.start, after);
        LoadedFit(Seen(x.device, x.start, after), after, x.paths[u]);
      } else {
        FitsAfter(before, after, s.trackers[u].items);
        FitsFewer(after, s.trackers[u].items, s'.trackers[u].items);
      }
    }
  }

  lemma AfterStep(x: Call, s: Bounce.State, m: Bounce.Move, before: P.Files, after: P.Files)
    requires DiskFits(x, before, s) && DiskStep(x, s, m, before, after)
    ensures P.Dwindled(before, after) && P.Dwindled(x.start, after) && G.Closed(after, [])
  {
    if m.Take? && !x.noop {
      var item :| Takes(s, item) && ItemPurged(item, before, after, x.noop);
      var u := s.active.value;
      assert u in s.trackers.Keys && TrackerFits(x, before, u, s.trackers[u]);
      FitsOne(before, s.trackers[u].items, item);
      P.PurgeDwindles(before, after, item.path, item.directory, item.tombstone);
      L.PurgeKeepsClosed(before, after, item.path, item.directory, item.tombstone);
    }
    DwindledTwice(x.start, before, after);
  }

  lemma DwindledTwice(a: P.Files, b: P.Files, c: P.Files)
    requires P.Dwindled(a, b) && P.Dwindled(b, c)
    ensures P.Dwindled(a, c)
  {
  }

  /** The trees found later are what the file system holds then. */
  lemma SeenShows(device: Device, start: P.Files, now: P.Files)
    requires Shows(device, start) && P.Dwindled(start, now) && G.Closed(now, [])
    ensures Shows(Seen(device, start, now), now)
  {
    forall path: Path | Seen(device, start, now).tree(path).Some?
      ensures P.Mirrors(now, Seen(device, start, now).tree(path).value, path)
    {
      MirrorsPruned(device.tree(path).value, path, start, now, device.touched);
    }
  }

  // ----- The moves of the loop

  /** Every tracker object stands for its value in `s`. */
  ghost predicate Current(x: Call, t: CacheTracker, u: int, s: Bounce.State)
    reads t, t.items
  {
    u in s.trackers && Stands(x, t, u, s.trackers[u])
  }

  ghost predicate AllCurrent(x: Call, trackers: map<int, CacheTracker>, s: Bounce.State)
    reads *
  {
    forall u <- trackers.Keys :: Current(x, trackers[u], u, s)
  }

  /** Loads the items of the tracker that becomes active, unless it has them already. */
  method Activate(x: Call, now: P.Files, t: CacheTracker, ghost v: Bounce.Tracker) returns (ghost items: seq<Item>)
    requires Stands(x, t, t.uid, v)
    modifies t`items, t`itemsLoaded
    ensures Stands(x, t, t.uid, Bounce.Loaded(v, items)) && Bounce.CanLoad(v, items)
    ensures !v.loaded ==> items == LoadedItems(Seen(x.device, x.start, now), x.paths[t.uid])
  {
    SeenLoadsFewer(x.device, x.start, now, t.dataPaths);
    t.EnsureItems(Seen(x.device, x.start, now));
    items := Views(t.items);
  }

  /** Purges the last item of a tracker: it is popped and its size given back. */
  method TakeLast(x: Call, t: CacheTracker, ghost v: Bounce.Tracker) returns (item: CacheItem)
    requires Stands(x, t, t.uid, v) && t.itemsLoaded && t.items != []
    modifies t`items, t`cacheUsed
    ensures Stands(x, t, t.uid, Bounce.Purged(v)) && item.View() == v.items[|v.items| - 1] && item.Linked()
  {
    var last := |t.items| - 1;
    item := t.items[last];
    t.items := t.items[..last];
    t.cacheUsed := t.cacheUsed - item.size;
    assert Views(t.items) == v.items[..last];
  }

  lemma QueuedInPool(trackers: map<int, CacheTracker>, elems: seq<CacheTracker>, uids: set<int>)
    requires uids <= trackers.Keys && multiset(elems) == multiset(Chosen(trackers, uids))
    ensures forall u <- uids :: trackers[u] in elems
    ensures forall t <- elems :: exists u :: u in uids && trackers[u] == t
    ensures elems == [] <==> uids == {}
  {
    forall u <- uids ensures trackers[u] in elems {
      assert trackers[u] in Chosen(trackers, uids);
      assert trackers[u] in multiset(elems);
    }
    forall t <- elems ensures exists u :: u in uids && trackers[u] == t {
      assert t in multiset(elems);
      assert t in Chosen(trackers, uids);
    }
    if elems == [] {
      assert forall u :: u !in uids;
    } else {
      assert elems[0] in elems;
    }
  }

  lemma ChosenWithout(trackers: map<int, CacheTracker>, uids: set<int>, u: int)
    requires uids <= trackers.Keys && u in uids
    requires forall v <- trackers.Keys :: trackers[v].uid == v
    ensures multiset(Chosen(trackers, uids)) == multiset(Chosen(trackers, uids - {u})) + multiset{trackers[u]}
    ensures trackers[u] !in Chosen(trackers, uids - {u})
  {
    ChosenNext(trackers, uids - {u}, u);
    assert uids - {u} + {u} == uids;
  }

  /** The queue holds exactly the trackers of `uids`. */
  ghost predicate Holds(trackers: map<int, CacheTracker>, queue: TrackerQueue, uids: set<int>)
    reads queue, queue.elems
  {
    && uids <= trackers.Keys && (forall u <- trackers.Keys :: trackers[u].uid == u)
    && queue.Valid() && multiset(queue.elems) == multiset(Chosen(trackers, uids))
  }

  /** The active tracker, if there is one, goes back into the queue. */
  method PushBack(trackers: map<int, CacheTracker>, active: CacheTracker?, queue: TrackerQueue, ghost s: Bounce.State)
    requires Placed(trackers, active, queue, s)
    modifies queue
    ensures Holds(trackers, queue, Bounce.Pool(s))
  {
    if active != null {
      ChosenNext(trackers, s.queue, active.uid);
      queue.Push(active);
    } else {
      assert Bounce.Pool(s) == s.queue;
    }
  }

  /** The queue's top comes out. */
  method PopTop(trackers: map<int, CacheTracker>, queue: TrackerQueue, ghost pool: set<int>) returns (top: CacheTracker)
    requires Holds(trackers, queue, pool) && pool != {}
    modifies queue
    ensures top.uid in pool && trackers[top.uid] == top && Holds(trackers, queue, pool - {top.uid})
    ensures forall v <- pool :: RatioOf(trackers[v]) <= RatioOf(top)
  {
    QueuedInPool(trackers, queue.elems, pool);
    top := queue.Pop();
    assert top in multiset(old(queue.elems));
    ChosenWithout(trackers, pool, top.uid);
    Cancel(multiset(queue.elems), multiset(Chosen(trackers, pool - {top.uid})), top);
  }

  lemma Cancel<T>(a: multiset<T>, b: multiset<T>, x: T)
    requires a + multiset{x} == b + multiset{x}
    ensures a == b
  {
    assert a == (a + multiset{x}) - multiset{x};
    assert b == (b + multiset{x}) - multiset{x};
  }

  ghost predicate RatiosAgree(trackers: map<int, CacheTracker>, values: Bounce.Trackers)
    reads trackers.Values
  {
    trackers.Keys == values.Keys && forall u <- trackers.Keys :: RatioOf(trackers[u]) == Bounce.RatioOf(values[u])
  }

  lemma CurrentRatios(x: Call, trackers: map<int, CacheTracker>, s: Bounce.State)
    requires trackers.Keys == s.trackers.Keys && AllCurrent(x, trackers, s)
    ensures RatiosAgree(trackers, s.trackers)
  {
    forall u <- trackers.Keys ensures RatioOf(trackers[u]) == Bounce.RatioOf(s.trackers[u]) {
      assert Current(x, trackers[u], u, s);
    }
  }

  /** Exchanges the active tracker, if any, for the queue's top. */
  method Rotate(trackers: map<int, CacheTracker>, active: CacheTracker?, queue: TrackerQueue, ghost s: Bounce.State)
    returns (top: CacheTracker)
    requires Placed(trackers, active, queue, s) && Bounce.Pool(s) != {} && RatiosAgree(trackers, s.trackers)
    modifies queue
    ensures top.uid in trackers && trackers[top.uid] == top && top !in queue.elems
    ensures Holds(trackers, queue, Bounce.Pool(s) - {top.uid})
    ensures Bounce.IsTop(s.trackers, Bounce.Pool(s), top.uid)
  {
    ghost var pool := Bounce.Pool(s);
    PushBack(trackers, active, queue, s);
    top := PopTop(trackers, queue, pool);
    ChosenWithout(trackers, pool, top.uid);
    NotQueued(queue.elems, Chosen(trackers, pool - {top.uid}), top);
    assert RatiosAgree(trackers, s.trackers);
  }

  /** The exchange changes no tracker. */
  method RotateAmong(x: Call, trackers: map<int, CacheTracker>, active: CacheTracker?, queue: TrackerQueue,
                     ghost s: Bounce.State) returns (top: CacheTracker)
    requires Placed(trackers, active, queue, s) && Bounce.Pool(s) != {} && AllCurrent(x, trackers, s)
    modifies queue
    ensures top.uid in trackers && trackers[top.uid] == top && top !in queue.elems
    ensures Holds(trackers, queue, Bounce.Pool(s) - {top.uid})
    ensures Bounce.IsTop(s.trackers, Bounce.Pool(s), top.uid)
    ensures AllCurrent(x, trackers, s)
  {
    CurrentRatios(x, trackers, s);
    top := Rotate(trackers, active, queue, s);
    forall u <- trackers.Keys ensures Current(x, trackers[u], u, s) {
      assert old(Current(x, trackers[u], u, s));
    }
  }

  /** The swap: the best tracker becomes active and its items are loaded. */
  method SwapMove(x: Call, fs: FileSystem, trackers: map<int, CacheTracker>, active: CacheTracker?,
                  queue: TrackerQueue, ghost c: Bounce.Config, ghost s: Bounce.State)
    returns (top: CacheTracker, ghost m: Bounce.Move, ghost s': Bounce.State)
    requires Placed(trackers, active, queue, s)
    requires AllCurrent(x, trackers, s)
    requires !Bounce.Halted(c, s) && (s.active.None? || Bounce.NextBetter(s))
    modifies queue, trackers.Values
    ensures Placed(trackers, top, queue, s') && m.Swap? && Bounce.Next(c, s, m, s') && Loads(x, s, m, fs.files)
    ensures AllCurrent(x, trackers, s')
  {
    top := RotateAmong(x, trackers, active, queue, s);
    ghost var items := ActivateAmong(x, fs.files, trackers, top, s, queue);
    m, s' := SwapLoads(x, c, s, fs.files, top.uid, items);
  }

  lemma SwapLoads(x: Call, c: Bounce.Config, s: Bounce.State, now: P.Files, u: int, items: seq<Item>)
    returns (m: Bounce.Move, s': Bounce.State)
    requires Bounce.Known(s) && !Bounce.Halted(c, s) && (s.active.None? || Bounce.NextBetter(s))
    requires Bounce.IsTop(s.trackers, Bounce.Pool(s), u) && Bounce.CanLoad(s.trackers[u], items)
    requires !s.trackers[u].loaded ==> u in x.paths && items == LoadedItems(Seen(x.device, x.start, now), x.paths[u])
    ensures m.Swap? && Bounce.Next(c, s, m, s') && Loads(x, s, m, now) && s' == Activated(s, u, items)
  {
    m, s' := Bounce.Swap(u, items), Activated(s, u, items);
    SwapIsNext(c, s, u, items);
  }

  /** The machine's state after a swap to `u`. */
  ghost function Activated(s: Bounce.State, u: int, items: seq<Item>): Bounce.State
    requires u in s.trackers
  {
    Bounce.State(s.trackers[u := Bounce.Loaded(s.trackers[u], items)], Some(u), Bounce.Pool(s) - {u},
                 s.needed, s.cleared)
  }

  lemma SwapIsNext(c: Bounce.Config, s: Bounce.State, u: int, items: seq<Item>)
    requires Bounce.Known(s) && !Bounce.Halted(c, s) && (s.active.None? || Bounce.NextBetter(s))
    requires Bounce.IsTop(s.trackers, Bounce.Pool(s), u) && Bounce.CanLoad(s.trackers[u], items)
    ensures Bounce.Next(c, s, Bounce.Swap(u, items), Activated(s, u, items))
  {
  }

  /** Loading the new active tracker's items leaves all trackers standing for their values. */
  method ActivateAmong(x: Call, now: P.Files, trackers: map<int, CacheTracker>, t: CacheTracker,
                       ghost s: Bounce.State, ghost queue: TrackerQueue) returns (ghost items: seq<Item>)
    requires Bounce.Known(s) && s.trackers.Keys == trackers.Keys && t.uid in trackers && trackers[t.uid] == t
    requires Holds(trackers, queue, Bounce.Pool(s) - {t.uid}) && t !in queue.elems
    requires AllCurrent(x, trackers, s)
    modifies t`items, t`itemsLoaded
    ensures Bounce.CanLoad(s.trackers[t.uid], items)
    ensures !s.trackers[t.uid].loaded ==>
              t.uid in x.paths && items == LoadedItems(Seen(x.device, x.start, now), x.paths[t.uid])
    ensures Placed(trackers, t, queue, Activated(s, t.uid, items))
    ensures AllCurrent(x, trackers, Activated(s, t.uid, items))
  {
    assert Current(x, t, t.uid, s);
    items := Activate(x, now, t, s.trackers[t.uid]);
    ghost var s' := Activated(s, t.uid, items);
    assert Current(x, t, t.uid, s');
    forall v <- trackers.Keys | v != t.uid ensures Current(x, trackers[v], v, s') {
      assert old(Current(x, trackers[v], v, s));
    }
  }

  /** The active tracker's last item is taken off its list. */
  method TakeMove(x: Call, trackers: map<int, CacheTracker>, active: CacheTracker, queue: TrackerQueue,
                  ghost c: Bounce.Config, ghost s: Bounce.State)
    returns (item: CacheItem, ghost trackers': Bounce.Trackers)
    requires Placed(trackers, active, queue, s)
    requires AllCurrent(x, trackers, s)
    requires s.trackers[active.uid].items != [] && s.trackers[active.uid].loaded
    modifies active`items, active`cacheUsed
    ensures trackers' == s.trackers[active.uid := Bounce.Purged(s.trackers[active.uid])]
    ensures Takes(s, item.View()) && item.Linked()
    ensures queue.Valid() && multiset(queue.elems) == multiset(Chosen(trackers, s.queue))
    ensures forall u <- trackers.Keys :: Stands(x, trackers[u], u, trackers'[u])
  {
    ghost var u := active.uid;
    assert Current(x, active, u, s);
    assert active !in Chosen(trackers, s.queue);
    NotQueued(queue.elems, Chosen(trackers, s.queue), active);
    item := TakeLast(x, active, s.trackers[u]);
    trackers' := s.trackers[u := Bounce.Purged(s.trackers[u])];
    forall v <- trackers.Keys ensures Stands(x, trackers[v], v, trackers'[v]) {
      assert old(Current(x, trackers[v], v, s));
    }
  }

  ghost predicate AllStand(x: Call, trackers: map<int, CacheTracker>, values: Bounce.Trackers)
    reads *
  {
    trackers.Keys == values.Keys && forall u <- trackers.Keys :: Stands(x, trackers[u], u, values[u])
  }

  /** Purges the item that was just taken. */
  method PurgeTaken(x: Call, fs: FileSystem, item: CacheItem, ghost s: Bounce.State)
    requires DiskFits(x, fs.files, s) && Takes(s, item.View()) && item.Linked()
    modifies fs
    ensures ItemPurged(item.View(), old(fs.files), fs.files, x.noop)
  {
    ghost var u := s.active.value;
    assert u in s.trackers.Keys && TrackerFits(x, fs.files, u, s.trackers[u]);
    FitsOne(fs.files, s.trackers[u].items, item.View());
    PurgeItem(fs, item, x.noop);
  }

  /** That leaves all trackers and the queue as they are. */
  method PurgeAmong(x: Call, fs: FileSystem, item: CacheItem, queue: TrackerQueue,
                    ghost trackers: map<int, CacheTracker>, ghost values: Bounce.Trackers, ghost s: Bounce.State)
    requires AllStand(x, trackers, values) && Holds(trackers, queue, s.queue) && DiskFits(x, fs.files, s)
    requires Takes(s, item.View()) && item.Linked()
    modifies fs
    ensures AllStand(x, trackers, values) && Holds(trackers, queue, s.queue)
    ensures ItemPurged(item.View(), old(fs.files), fs.files, x.noop)
  {
    PurgeTaken(x, fs, item, s);
    forall v <- trackers.Keys ensures Stands(x, trackers[v], v, values[v]) {
      assert old(Stands(x, trackers[v], v, values[v]));
    }
  }

  // ----- The loop

  /** The run so far and the state it has reached. */
  ghost predicate Reached(c: Bounce.Config, states: seq<Bounce.State>, moves: seq<Bounce.Move>, s: Bounce.State) {
    Bounce.IsRun(c, states, moves) && states[|moves|] == s
  }

  lemma ReachedNext(c: Bounce.Config, states: seq<Bounce.State>, moves: seq<Bounce.Move>, s: Bounce.State,
                    m: Bounce.Move, s': Bounce.State)
    requires Reached(c, states, moves, s) && Bounce.Next(c, s, m, s')
    ensures Reached(c, states + [s'], moves + [m], s') && Bounce.Known(s) && Bounce.Known(s')
    ensures Bounce.Budget(s') < Bounce.Budget(s)
  {
    var states', moves' := states + [s'], moves + [m];
    forall i | 0 <= i < |moves'| ensures Bounce.StepAt(c, states', moves', i) {
      if i < |moves| {
        assert Bounce.StepAt(c, states, moves, i);
      }
    }
    Bounce.Spends(c, s, m, s');
  }

  lemma ReachedInv(c: Bounce.Config, states: seq<Bounce.State>, moves: seq<Bounce.Move>, s: Bounce.State)
    requires Reached(c, states, moves, s)
    ensures Bounce.Inv(c, s) && Bounce.Budget(s) >= 0
  {
    Bounce.RunKeepsInv(c, states, moves, |moves|);
    Bounce.SumNonNegative(Bounce.CountMap(s.trackers));
  }

  /** Is somebody in the queue more over quota than the active tracker? */
  lemma NotBetter(trackers: map<int, CacheTracker>, active: CacheTracker?, queue: TrackerQueue, s: Bounce.State)
    requires Placed(trackers, active, queue, s) && (active == null || queue.elems == [])
    ensures !Bounce.NextBetter(s)
  {
    QueuedInPool(trackers, queue.elems, s.queue);
  }

  lemma BetterIs(x: Call, trackers: map<int, CacheTracker>, active: CacheTracker, queue: TrackerQueue,
                 s: Bounce.State, top: CacheTracker)
    requires Placed(trackers, active, queue, s) && AllCurrent(x, trackers, s)
    requires top in queue.elems && forall t <- queue.elems :: RatioOf(t) <= RatioOf(top)
    ensures Bounce.NextBetter(s) <==> RatioOf(active) < RatioOf(top)
  {
    QueuedInPool(trackers, queue.elems, s.queue);
    CurrentRatios(x, trackers, s);
    var u :| u in s.queue && trackers[u] == top;
    assert Bounce.RatioOf(s.trackers[u]) == RatioOf(top);
  }

  method NextBetter(trackers: map<int, CacheTracker>, active: CacheTracker?, queue: TrackerQueue,
                    ghost x: Call, ghost s: Bounce.State) returns (better: bool)
    requires Placed(trackers, active, queue, s)
    requires AllCurrent(x, trackers, s)
    ensures better <==> Bounce.NextBetter(s)
  {
    if active == null || queue.elems == [] {
      NotBetter(trackers, active, queue, s);
      return false;
    }
    var mine := active.GetCacheRatio();
    var top := queue.Top();
    var best := top.GetCacheRatio();
    better := mine < best;
    BetterIs(x, trackers, active, queue, s, top);
  }

  /** The loop variables stand for the state `s`. */
  ghost predicate Tracks(trackers: map<int, CacheTracker>, active: CacheTracker?, queue: TrackerQueue,
                         needed: int, cleared: int, s: Bounce.State)
    reads queue, queue.elems
  {
    Placed(trackers, active, queue, s) && needed == s.needed && cleared == s.cleared
  }

  lemma TakeIsNext(c: Bounce.Config, s: Bounce.State, free: int, item: Item, values: Bounce.Trackers,
                   needed: int, cleared: int) returns (s': Bounce.State)
    requires Bounce.Known(s) && !Bounce.Halted(c, s) && !Bounce.NextBetter(s) && Takes(s, item)
    requires values == s.trackers[s.active.value := Bounce.Purged(s.trackers[s.active.value])]
    requires needed == if s.needed - item.size <= 0 then c.target - free else s.needed - item.size
    requires cleared == s.cleared + item.size
    ensures s' == Bounce.State(values, s.active, s.queue, needed, cleared)
    ensures Bounce.Next(c, s, Bounce.Take(free), s') && Bounce.Known(s')
  {
    s' := Bounce.State(values, s.active, s.queue, needed, cleared);
  }

  lemma TakeIsCounted(diskFree: nat -> int, s: Bounce.State, item: Item, measured: nat, measured': nat)
    requires Takes(s, item)
    requires measured' == if s.needed - item.size <= 0 then measured + 1 else measured
    ensures Counted(diskFree, s, Bounce.Take(diskFree(measured + 1)), measured, measured')
  {
  }

  /** The active tracker's last item is taken off its list and purged. */
  method TakeAndPurge(x: Call, fs: FileSystem, trackers: map<int, CacheTracker>,
                      active: CacheTracker, queue: TrackerQueue, ghost c: Bounce.Config, ghost s: Bounce.State)
    returns (size: int, ghost item: Item, ghost values: Bounce.Trackers)
    requires Placed(trackers, active, queue, s) && AllCurrent(x, trackers, s) && DiskFits(x, fs.files, s)
    requires s.trackers[active.uid].items != [] && s.trackers[active.uid].loaded
    modifies fs, active`items, active`cacheUsed
    ensures values == s.trackers[active.uid := Bounce.Purged(s.trackers[active.uid])]
    ensures Takes(s, item) && size == item.size && ItemPurged(item, old(fs.files), fs.files, x.noop)
    ensures queue.Valid() && multiset(queue.elems) == multiset(Chosen(trackers, s.queue))
    ensures AllStand(x, trackers, values)
  {
    var last;
    last, values := TakeMove(x, trackers, active, queue, c, s);
    item, size := last.View(), last.size;
    PurgeAmong(x, fs, last, queue, trackers, values, s);
  }

  lemma TakenIsPlaced(trackers: map<int, CacheTracker>, active: CacheTracker, queue: TrackerQueue, s: Bounce.State,
                      s': Bounce.State)
    requires Bounce.Known(s) && Bounce.Known(s') && s.trackers.Keys == s'.trackers.Keys == trackers.Keys
    requires s'.active == s.active == Some(active.uid) && s'.queue == s.queue
    requires forall u <- trackers.Keys :: trackers[u].uid == u
    requires active.uid in trackers && trackers[active.uid] == active
    requires queue.Valid() && multiset(queue.elems) == multiset(Chosen(trackers, s.queue))
    ensures Placed(trackers, active, queue, s')
  {
  }

  /** One purge, the accounts, and a measurement when enough seems to be cleared. */
  method PurgeOne(x: Call, fs: FileSystem, trackers: map<int, CacheTracker>, active: CacheTracker,
                  queue: TrackerQueue, c: Bounce.Config, diskFree: nat -> int, measured: nat, needed: int,
                  cleared: int, ghost s: Bounce.State)
    returns (measured': nat, needed': int, cleared': int, ghost s': Bounce.State)
    requires Tracks(trackers, active, queue, needed, cleared, s)
    requires AllCurrent(x, trackers, s) && DiskFits(x, fs.files, s)
    requires !Bounce.Halted(c, s) && !Bounce.NextBetter(s)
    requires s.trackers[active.uid].items != [] && s.trackers[active.uid].loaded
    modifies fs, active`items, active`cacheUsed
    ensures Bounce.Next(c, s, Bounce.Take(diskFree(measured + 1)), s')
    ensures Counted(diskFree, s, Bounce.Take(diskFree(measured + 1)), measured, measured')
    ensures DiskStep(x, s, Bounce.Take(diskFree(measured + 1)), old(fs.files), fs.files)
    ensures Tracks(trackers, active, queue, needed', cleared', s')
    ensures AllCurrent(x, trackers, s')
  {
    var size;
    ghost var item, values;
    size, item, values := TakeAndPurge(x, fs, trackers, active, queue, c, s);
    measured', needed', cleared' := measured, needed - size, cleared + size;
    if needed' <= 0 {
      measured' := measured + 1;
      needed' := c.target - diskFree(measured');
    }
    s' := TakeIsNext(c, s, diskFree(measured + 1), item, values, needed', cleared');
    TakeIsCounted(diskFree, s, item, measured, measured');
    TakenIsPlaced(trackers, active, queue, s, s');
  }

  /** Whether the loop stops before doing anything: under quota, or into the reserve. */
  method Stops(trackers: map<int, CacheTracker>, active: CacheTracker?, queue: TrackerQueue, c: Bounce.Config,
               needed: int, cleared: int, ghost x: Call, ghost s: Bounce.State) returns (stop: bool)
    requires Tracks(trackers, active, queue, needed, cleared, s)
    requires AllCurrent(x, trackers, s)
    requires needed > 0 && (active != null || queue.elems != [])
    ensures stop <==> Bounce.Halted(c, s)
  {
    NotExhausted(trackers, active, queue, s);
    if active != null {
      assert Current(x, active, active.uid, s);
      var ratio := active.GetCacheRatio();
      if ratio < 10000 && !c.defyQuota {
        return true;
      }
    }
    return c.reserved > 0 && cleared >= c.total - c.reserved;
  }

  /** A move that looks makes the next measurement, and any other move makes none. */
  ghost predicate Counted(diskFree: nat -> int, s: Bounce.State, m: Bounce.Move, measured: nat, measured': nat) {
    && measured' == measured + (if Bounce.Looks(s, m) then 1 else 0)
    && (Bounce.Looks(s, m) ==> m.free == diskFree(measured'))
  }

  /** The rest of an iteration: swap, drop or purge. */
  method Move(x: Call, fs: FileSystem, trackers: map<int, CacheTracker>, active: CacheTracker?,
              queue: TrackerQueue, c: Bounce.Config, diskFree: nat -> int, measured: nat, needed: int, cleared: int,
              ghost s: Bounce.State)
    returns (active': CacheTracker?, measured': nat, needed': int, cleared': int, ghost m: Bounce.Move,
             ghost s': Bounce.State)
    requires Tracks(trackers, active, queue, needed, cleared, s) && Bounce.Inv(c, s) && !Bounce.Halted(c, s)
    requires AllCurrent(x, trackers, s) && DiskFits(x, fs.files, s)
    modifies fs, queue, trackers.Values
    ensures Bounce.Next(c, s, m, s') && Counted(diskFree, s, m, measured, measured')
    ensures DiskStep(x, s, m, old(fs.files), fs.files)
    ensures Tracks(trackers, active', queue, needed', cleared', s')
    ensures AllCurrent(x, trackers, s')
  {
    active', measured', needed', cleared' := active, measured, needed, cleared;
    assert active != null ==> Current(x, active, active.uid, s);
    var better := NextBetter(trackers, active, queue, x, s);
    if active == null || better {
      active', m, s' := SwapMove(x, fs, trackers, active, queue, c, s);
    } else if active.items == [] {
      active' := null;
      m, s' := Bounce.Drop, s.(active := None);
    } else {
      measured', needed', cleared', s' :=
        PurgeOne(x, fs, trackers, active, queue, c, diskFree, measured, needed, cleared, s);
      m := Bounce.Take(diskFree(measured + 1));
    }
  }

  /** One iteration of the bounce loop, from the state `s` of the machine; `stop` when it breaks out. */
  method Iterate(x: Call, fs: FileSystem, trackers: map<int, CacheTracker>, active: CacheTracker?,
                 queue: TrackerQueue, c: Bounce.Config, diskFree: nat -> int, measured: nat, needed: int, cleared: int,
                 ghost s: Bounce.State)
    returns (stop: bool, active': CacheTracker?, measured': nat, needed': int, cleared': int,
             ghost move: Option<Bounce.Move>, ghost s': Bounce.State)
    requires Tracks(trackers, active, queue, needed, cleared, s) && AllCurrent(x, trackers, s)
    requires Bounce.Inv(c, s) && needed > 0 && (active != null || queue.elems != []) && DiskFits(x, fs.files, s)
    modifies fs, queue, trackers.Values
    ensures move.None? ==> s' == s && stop && fs.files == old(fs.files) && measured' == measured
    ensures move.None? <==> Bounce.Ends(c, s)
    ensures move.Some? ==> Bounce.Next(c, s, move.value, s') && Counted(diskFree, s, move.value, measured, measured')
    ensures move.Some? ==> DiskStep(x, s, move.value, old(fs.files), fs.files)
    ensures Tracks(trackers, active', queue, needed', cleared', s') && AllCurrent(x, trackers, s')
    ensures stop ==> Bounce.Ends(c, s')
    ensures !stop ==> needed' > 0
  {
    active', measured', needed', cleared', move, s' := active, measured, needed, cleared, None, s;
    stop := Stops(trackers, active, queue, c, needed, cleared, x, s);
    Bounce.HaltedEnds(c, s);
    if !stop {
      ghost var m;
      active', measured', needed', cleared', m, s' :=
        Move(x, fs, trackers, active, queue, c, diskFree, measured, needed, cleared, s);
      move := Some(m);
      stop := needed' <= 0;
    }
  }

  /** `disk` holds the file system between the moves of a run. */
  ghost predicate IsDiskRun(x: Call, states: seq<Bounce.State>, moves: seq<Bounce.Move>, disk: seq<P.Files>) {
    && |disk| == |moves| + 1 && |states| == |moves| + 1
    && (forall i :: 0 <= i < |moves| ==> DiskAt(x, states, moves, disk, i))
  }

  ghost predicate DiskAt(x: Call, states: seq<Bounce.State>, moves: seq<Bounce.Move>, disk: seq<P.Files>, i: nat)
    requires i < |moves| && |disk| == |moves| + 1 && |states| == |moves| + 1
  {
    DiskStep(x, states[i], moves[i], disk[i], disk[i + 1])
  }

  lemma DiskExtended(x: Call, states: seq<Bounce.State>, moves: seq<Bounce.Move>, disk: seq<P.Files>,
                     s: Bounce.State, m: Bounce.Move, s': Bounce.State, after: P.Files)
    requires IsDiskRun(x, states, moves, disk) && states[|moves|] == s
    requires DiskStep(x, s, m, disk[|moves|], after)
    ensures IsDiskRun(x, states + [s'], moves + [m], disk + [after])
  {
    var states', moves', disk' := states + [s'], moves + [m], disk + [after];
    forall i | 0 <= i < |moves'| ensures DiskAt(x, states', moves', disk', i) {
      if i < |moves| {
        assert DiskAt(x, states, moves, disk, i);
      }
    }
  }

  /** The k-th move that looks finds what the k-th measurement after the first one says. */
  ghost predicate MeasuredAt(diskFree: nat -> int, states: seq<Bounce.State>, moves: seq<Bounce.Move>, i: nat)
    requires i < |moves| < |states|
  {
    Bounce.Looks(states[i], moves[i]) ==> moves[i].free == diskFree(Bounce.Looked(states, moves, i + 1))
  }

  /** All measurements of a run; there were `measured`. */
  ghost predicate Measured(diskFree: nat -> int, states: seq<Bounce.State>, moves: seq<Bounce.Move>, measured: nat) {
    && |states| == |moves| + 1 && measured == Bounce.Looked(states, moves, |moves|)
    && (forall i :: 0 <= i < |moves| ==> MeasuredAt(diskFree, states, moves, i))
  }

  lemma MeasuredExtended(diskFree: nat -> int, states: seq<Bounce.State>, moves: seq<Bounce.Move>, measured: nat,
                         s: Bounce.State, m: Bounce.Move, s': Bounce.State, measured': nat)
    requires Measured(diskFree, states, moves, measured) && states[|moves|] == s
    requires Counted(diskFree, s, m, measured, measured')
    ensures Measured(diskFree, states + [s'], moves + [m], measured')
  {
    var states', moves' := states + [s'], moves + [m];
    Bounce.LookedBefore(states, moves, s', m, |moves|);
    forall i | 0 <= i < |moves'| ensures MeasuredAt(diskFree, states', moves', i) {
      if i < |moves| {
        assert MeasuredAt(diskFree, states, moves, i);
        Bounce.LookedBefore(states, moves, s', m, i + 1);
      }
    }
  }

  /** A run, the state it has reached, and the file system there. */
  ghost predicate RunReached(x: Call, c: Bounce.Config, states: seq<Bounce.State>, moves: seq<Bounce.Move>,
                             disk: seq<P.Files>, s: Bounce.State, files: P.Files) {
    && Reached(c, states, moves, s) && IsDiskRun(x, states, moves, disk) && disk[|moves|] == files
  }

  lemma ExtendedBy(x: Call, c: Bounce.Config, states: seq<Bounce.State>, moves: seq<Bounce.Move>,
                   disk: seq<P.Files>, s: Bounce.State, files: P.Files,
                   move: Bounce.Move, s': Bounce.State, files': P.Files)
    requires RunReached(x, c, states, moves, disk, s, files) && DiskFits(x, files, s)
    requires Bounce.Next(c, s, move, s') && DiskStep(x, s, move, files, files')
    ensures RunReached(x, c, states + [s'], moves + [move], disk + [files'], s', files') && DiskFits(x, files', s')
    ensures Bounce.Known(s) && Bounce.Budget(s') < Bounce.Budget(s)
  {
    ReachedInv(c, states, moves, s);
    ReachedNext(c, states, moves, s, move, s');
    DiskExtended(x, states, moves, disk, s, move, s', files');
    StepFits(x, c, s, move, s', files, files');
  }

  /** The run with one more move, or the same run when there was none. */
  lemma Extended(x: Call, c: Bounce.Config, states: seq<Bounce.State>, moves: seq<Bounce.Move>,
                 disk: seq<P.Files>, s: Bounce.State, files: P.Files,
                 move: Option<Bounce.Move>, s': Bounce.State, files': P.Files)
    returns (states': seq<Bounce.State>, moves': seq<Bounce.Move>, disk': seq<P.Files>)
    requires RunReached(x, c, states, moves, disk, s, files) && DiskFits(x, files, s)
    requires move.None? ==> s' == s && files' == files
    requires move.Some? ==> Bounce.Next(c, s, move.value, s') && DiskStep(x, s, move.value, files, files')
    ensures RunReached(x, c, states', moves', disk', s', files') && DiskFits(x, files', s')
    ensures states' == (if move.Some? then states + [s'] else states)
    ensures moves' == (if move.Some? then moves + [move.value] else moves) && disk'[0] == disk[0]
    ensures Bounce.Inv(c, s') && 0 <= Bounce.Budget(s')
    ensures move.Some? ==> Bounce.Known(s) && Bounce.Budget(s') < Bounce.Budget(s)
  {
    states', moves', disk' := states, moves, disk;
    if move.Some? {
      ExtendedBy(x, c, states, moves, disk, s, files, move.value, s', files');
      states', moves', disk' := states + [s'], moves + [move.value], disk + [files'];
    }
    ReachedInv(c, states', moves', s');
  }

  /**
    The bounce loop, from queued and measured trackers to a halt. The measured
    free space is an oracle: `diskFree(n)` is what the n-th measurement says.
  */
  method BounceLoop(x: Call, fs: FileSystem, trackers: map<int, CacheTracker>, queue: TrackerQueue,
                    c: Bounce.Config, diskFree: nat -> int, ghost start: Bounce.State)
    returns (measured: nat, ghost states: seq<Bounce.State>, ghost moves: seq<Bounce.Move>, ghost disk: seq<P.Files>)
    requires Placed(trackers, null, queue, start) && Bounce.Start(c, start)
    requires start.needed == c.target - diskFree(0) > 0
    requires AllCurrent(x, trackers, start) && DiskFits(x, fs.files, start)
    modifies fs, queue, trackers.Values
    ensures Bounce.IsRun(c, states, moves) && states[0] == start
    ensures Measured(diskFree, states, moves, measured)
    ensures Bounce.Ends(c, states[|moves|])
    ensures AllCurrent(x, trackers, states[|moves|])
    ensures IsDiskRun(x, states, moves, disk) && disk[0] == old(fs.files) && disk[|moves|] == fs.files
  {
    var active: CacheTracker? := null;
    var needed, cleared := c.target - diskFree(0), 0;
    measured := 0;
    states, moves, disk := [start], [], [fs.files];
    ghost var s := start;
    ReachedInv(c, states, moves, s);
    while active != null || queue.elems != []
      invariant RunReached(x, c, states, moves, disk, s, fs.files)
      invariant Measured(diskFree, states, moves, measured)
      invariant states[0] == start && disk[0] == old(fs.files) && Bounce.Inv(c, s)
      invariant Tracks(trackers, active, queue, needed, cleared, s) && needed > 0
      invariant AllCurrent(x, trackers, s) && DiskFits(x, fs.files, s)
      decreases Bounce.Budget(s)
    {
      var stop;
      ghost var move, s', before, count := None, s, fs.files, measured;
      stop, active, measured, needed, cleared, move, s' :=
        Iterate(x, fs, trackers, active, queue, c, diskFree, measured, needed, cleared, s);
      if move.Some? {
        MeasuredExtended(diskFree, states, moves, count, s, move.value, s', measured);
      }
      states, moves, disk := Extended(x, c, states, moves, disk, s, before, move, s', fs.files);
      s := s';
      if stop {
        return;
      }
    }
    NotExhausted(trackers, active, queue, s);
    Bounce.HaltedEnds(c, s);
  }

  lemma NotExhausted(trackers: map<int, CacheTracker>, active: CacheTracker?, queue: TrackerQueue, s: Bounce.State)
    requires Placed(trackers, active, queue, s)
    ensures active != null || queue.elems != [] <==> !Bounce.Exhausted(s)
  {
    QueuedInPool(trackers, queue.elems, s.queue);
  }

  // ----- freeCache

  /** The machine's initial state. */
  ghost function StartState(values: Bounce.Trackers, needed: int): Bounce.State {
    Bounce.State(values, None, values.Keys, needed, 0)
  }

  lemma PopulatedIsStart(x: Call, trackers: map<int, CacheTracker>, quotas: map<int, int>, queue: TrackerQueue,
                         needed: int)
    requires Populated(x.device, trackers, x.paths, quotas, queue, trackers.Keys)
    ensures var start := StartState(StartValues(x.device, x.paths, quotas), needed);
            Placed(trackers, null, queue, start) && AllCurrent(x, trackers, start)
  {
    var values := StartValues(x.device, x.paths, quotas);
    forall u <- trackers.Keys ensures Current(x, trackers[u], u, StartState(values, needed)) {
      assert IsNew(trackers[u], u, x.paths[u], QuotaFor(quotas, u));
    }
    assert forall u <- trackers.Keys :: IsNew(trackers[u], u, x.paths[u], QuotaFor(quotas, u));
  }

  /** The trees that can be opened are what the file system holds. */
  ghost predicate Shows(device: Device, files: P.Files) {
    forall path: Path :: device.tree(path).Some? ==> P.Mirrors(files, device.tree(path).value, path)
  }

  lemma LoadedFit(device: Device, files: P.Files, paths: seq<Path>)
    requires Shows(device, files)
    ensures Fits(files, LoadedItems(device, paths))
  {
    var places, sorted := Places(device, paths), LoadedItems(device, paths);
    LoadedArranges(device, paths);
    PlacesShow(device, files, paths);
    forall item <- sorted
      ensures item.path != [] && (item.path in files ==> (item.directory <==> files[item.path].Folder?))
    {
      assert item in multiset(sorted);
      var i := ItemFromPlace(places, item);
      assert places[i] in places;
      PurgeSafety.TreeIsMarked(files, places[i].0, places[i].1);
    }
  }

  lemma {:induction false} PlacesShow(device: Device, files: P.Files, paths: seq<Path>)
    requires Shows(device, files)
    ensures forall place <- Places(device, paths) :: P.Mirrors(files, place.0, place.1)
  {
    if paths != [] {
      PlacesShow(device, files, paths[..|paths| - 1]);
    }
  }

  lemma StartFits(x: Call, quotas: map<int, int>, needed: int)
    requires Shows(x.device, x.start) && G.Closed(x.start, [])
    ensures DiskFits(x, x.start, StartState(StartValues(x.device, x.paths, quotas), needed))
  {
    var s := StartState(StartValues(x.device, x.paths, quotas), needed);
    forall u <- x.paths.Keys ensures TrackerFits(x, x.start, u, s.trackers[u]) {
      LoadedFit(x.device, x.start, x.paths[u]);
    }
  }

  /** What the loop is called with. */
  function CallOf(device: Device, files: P.Files, users: seq<User>, owner: OwnerOf, noop: bool): Call {
    Call(device, files, Grouped(AllDirs(owner, users)), noop)
  }

  /** Measures and queues the trackers, and bounces. */
  method FreeFromTrackers(x: Call, fs: FileSystem, trackers: map<int, CacheTracker>, quotas: map<int, int>,
                          target: int, reserved: int, defyQuota: bool, diskFree: nat -> int)
    returns (measured: nat, ghost c: Bounce.Config, ghost states: seq<Bounce.State>, ghost moves: seq<Bounce.Move>,
             ghost disk: seq<P.Files>)
    requires diskFree(0) < target && Shows(x.device, fs.files) && G.Closed(fs.files, []) && x.start == fs.files
    requires Created(trackers, x.paths, quotas)
    modifies fs, trackers.Values
    ensures c.target == target && c.reserved == reserved && c.defyQuota == defyQuota
    ensures Bounce.IsRun(c, states, moves) && Measured(diskFree, states, moves, measured)
    ensures states[0] == StartState(StartValues(x.device, x.paths, quotas), target - diskFree(0))
    ensures Bounce.Ends(c, states[|moves|])
    ensures IsDiskRun(x, states, moves, disk) && disk[0] == old(fs.files) && disk[|moves|] == fs.files
  {
    var queue := new TrackerQueue();
    var total := Populate(x.device, trackers, x.paths, quotas, queue);
    var config := Bounce.Config(target, reserved, defyQuota, total);
    c := config;
    PopulatedIsStart(x, trackers, quotas, queue, target - diskFree(0));
    StartFits(x, quotas, target - diskFree(0));
    ghost var start := StartState(StartValues(x.device, x.paths, quotas), target - diskFree(0));
    measured, states, moves, disk := BounceLoop(x, fs, trackers, queue, config, diskFree, start);
  }

  /** The flags of the call. */
  datatype Flags = Flags(v2: bool, noop: bool, defyQuota: bool)

  /**
    Frees cache until `target` bytes are free. `measured` is how often the free
    space was measured before the final measurement that decides the result.
  */
  method FreeCache(device: Device, fs: FileSystem, users: seq<User>, owner: OwnerOf, quotas: map<int, int>,
                   target: int, reserved: int, flags: Flags, diskFree: nat -> int)
    returns (ok: bool, measured: nat, ghost c: Bounce.Config, ghost states: seq<Bounce.State>,
             ghost moves: seq<Bounce.Move>, ghost disk: seq<P.Files>)
    requires Shows(device, fs.files) && G.Closed(fs.files, [])
    modifies fs
    ensures diskFree(0) < 0 ==> !ok && fs.files == old(fs.files)
    ensures 0 <= diskFree(0) && target <= diskFree(0) ==> ok && fs.files == old(fs.files)
    ensures 0 <= diskFree(0) < target && !(flags.v2 && AllOpen(users)) ==> !ok && fs.files == old(fs.files)
    ensures 0 <= diskFree(0) < target && flags.v2 && AllOpen(users) ==>
              var x := CallOf(device, old(fs.files), users, owner, flags.noop);
              && c.target == target && c.reserved == reserved && c.defyQuota == flags.defyQuota
              && Bounce.IsRun(c, states, moves) && Measured(diskFree, states, moves, measured)
              && states[0] == StartState(StartValues(device, x.paths, quotas), target - diskFree(0))
              && Bounce.Ends(c, states[|moves|])
              && IsDiskRun(x, states, moves, disk) && disk[0] == old(fs.files) && disk[|moves|] == fs.files
              && ok == (diskFree(measured + 1) >= target)
  {
    c, states, moves, disk, measured := Bounce.Config(target, reserved, flags.defyQuota, 0), [], [], [], 0;
    var free := diskFree(0);
    if free < 0 {
      return false, 0, c, states, moves, disk;
    }
    if free >= target {
      return true, 0, c, states, moves, disk;
    }
    if !flags.v2 {
      return false, 0, c, states, moves, disk;
    }
    var opens, trackers := CreateTrackers(users, owner, quotas);
    if !opens {
      return false, 0, c, states, moves, disk;
    }
    var x := CallOf(device, fs.files, users, owner, flags.noop);
    measured, c, states, moves, disk :=
      FreeFromTrackers(x, fs, trackers, quotas, target, reserved, flags.defyQuota, diskFree);
    ok := diskFree(measured + 1) >= target;
  }

  /** Told to change nothing, the loop runs as it would and changes nothing. */
  lemma {:induction false} NoopChangesNothing(x: Call, states: seq<Bounce.State>, moves: seq<Bounce.Move>,
                                              disk: seq<P.Files>, j: nat)
    requires x.noop && IsDiskRun(x, states, moves, disk) && j <= |moves|
    ensures disk[j] == disk[0]
    decreases j
  {
    if j > 0 {
      NoopChangesNothing(x, states, moves, disk, j - 1);
      assert DiskAt(x, states, moves, disk, j - 1);
    }
  }
}
