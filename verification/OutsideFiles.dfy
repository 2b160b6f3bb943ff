/**
  Which files freeCache empties although it purges none of their names, whatever
  the modification times, the quotas and the library's sort: those that share
  their inode with a regular file in a tombstoned directory of a cache, or with
  a file that a lone tombstoned link in a cache leads to.
*/
module OutsideFiles {
  import opened Wrappers
  import opened Fts
  import opened CacheItems
  import opened CacheCoverage
  import opened PurgeOrder
  import opened Purge
  import opened GroupPurge
  import opened SeenTrees
  import opened CacheTrackers
  import opened CacheRuns
  import opened SameDevices
  import Bounce
  import F = FreeCache
  import S = PurgeSafety
  import U = CacheUse

  // ----- What exposes an inode

  /** A lone tombstoned item of a cache directory; when it is a link, truncating it follows the link. */
  ghost predicate LeadsTo(fs: Files, item: Item, ino: nat) {
    && !item.directory && item.tombstone
    && TruncateTarget(fs, item.path).Some? && fs[TruncateTarget(fs, item.path).value].ino == ino
  }

  /** In a tombstoned directory, a cache has a regular file with this inode or a lone link that leads to it. */
  ghost predicate Exposes(fs: Files, place: Place, ino: nat) {
    || (exists p <- fs.Keys :: Spared(fs, place.1, false, p) && fs[p].ino == ino)
    || (exists item <- LoadTree(place.0, place.1) :: LeadsTo(fs, item, ino))
  }

  /** A cache directory of some tracker, other than `except`, exposes the inode. */
  ghost predicate Exposed(device: Device, paths: F.DataPaths, fs: Files, except: Option<int>, ino: nat) {
    exists u, place :: ExposedBy(device, paths, fs, u, place, ino) && except != Some(u)
  }

  ghost predicate ExposedBy(device: Device, paths: F.DataPaths, fs: Files, u: int, place: Place, ino: nat) {
    u in paths && place in Places(device, paths[u]) && Exposes(fs, place, ino)
  }

  /** A run of the loop that starts with this file system and these caches. */
  ghost predicate RunsFrom(r: Run, device: Device, paths: F.DataPaths, fs: Files) {
    IsCacheRun(r) && r.paths == paths && r.disk[0] == fs && SameCaches(device, r.device)
  }

  // ----- What a run empties was exposed

  lemma {:induction false} FlagFromStart(fs: Files, now: Files, p: Path, tombstone: bool, d: Path)
    requires Dwindled(fs, now) && Flag(now, p, tombstone, d)
    ensures Flag(fs, p, tombstone, d)
    decreases |d|
  {
    if |d| > |p| {
      if Flag(now, p, tombstone, ParentOf(d)) {
        FlagFromStart(fs, now, p, tombstone, ParentOf(d));
      } else {
        assert Spent(now[d]) == Spent(fs[d]);
      }
    }
  }

  lemma SparedFromStart(fs: Files, now: Files, p: Path, tombstone: bool, r: Path)
    requires Dwindled(fs, now) && Spared(now, p, tombstone, r)
    ensures Spared(fs, p, tombstone, r) && fs[r].ino == now[r].ino
  {
    FlagFromStart(fs, now, p, tombstone, ParentOf(r));
    assert Spent(now[r]) == Spent(fs[r]);
  }

  /** What is spared below an item of a tree is spared below the tree's root. */
  lemma SparedBelow(fs: Files, root: Path, p: Path, r: Path)
    requires Closed(fs, root) && root < p < r && p in fs && fs[p].Folder?
    ensures Spared(fs, p, Tombstoned(fs, root, p), r) <==> Spared(fs, root, false, r)
  {
    assert KeptInos(fs, root, {}) == {};
    assert Remains(fs, root, {}, {}, fs);
    SparedAlike(fs, root, {}, {}, fs, p, r);
  }

  /** An inode that the purge of an item empties later was exposed at the start. */
  lemma TruncatedWasExposed(fs: Files, now: Files, place: Place, item: Item, ino: nat)
    requires Dwindled(fs, now) && Mirrors(fs, place.0, place.1) && item in LoadTree(place.0, place.1)
    requires ino in Truncated(now, item.path, item.directory, item.tombstone)
    ensures Exposes(fs, place, ino)
  {
    S.TreeIsMarked(fs, place.0, place.1);
    S.MirroredIsClosed(fs, place.0, place.1);
    if item.directory {
      var r :| r in now && Spared(now, item.path, item.tombstone, r) && now[r].ino == ino;
      SparedFromStart(fs, now, item.path, item.tombstone, r);
      SparedBelow(fs, place.1, item.path, r);
    } else {
      TargetDwindled(fs, now, item.path);
      var r := TruncateTarget(fs, item.path).value;
      assert Spent(now[r]) == Spent(fs[r]);
      assert LeadsTo(fs, item, ino);
    }
  }

  lemma SameExposure(fs: Files, a: Place, b: Place, ino: nat)
    requires a.1 == b.1 && Bones(a.0) == Bones(b.0) && Exposes(fs, a, ino)
    ensures Exposes(fs, b, ino)
  {
    if exists item :: item in LoadTree(a.0, a.1) && LeadsTo(fs, item, ino) {
      var item :| item in LoadTree(a.0, a.1) && LeadsTo(fs, item, ino);
      var other := SameItem(a.0, b.0, a.1, item);
      assert LeadsTo(fs, other, ino);
    }
  }

  /** A cache directory that items were loaded from has the bones of the same directory at the start. */
  lemma SpotBones(r: Run, s: Spot, device: Device) returns (place: Place)
    requires IsCacheRun(r) && IsSpot(r, s) && SameCaches(device, r.device)
    ensures place in Places(device, r.paths[s.u]) && place.1 == s.place.1 && Bones(place.0) == Bones(s.place.0)
  {
    var p := SpotAtStart(r, s);
    SameIsSymmetric(device, r.device);
    place := SamePlaceOf(r.device, device, r.paths[s.u], p);
    SameBones(p.0, place.0);
    var i := U.LoadedBy(r.states, r.moves, s.u, |r.moves|);
    if i.Some? {
      F.PlacesShow(r.device, r.disk[0], r.paths[s.u]);
      NotLoadedYet(r, s.u, i.value);
      PartUntouched(r, s, i.value);
      PrunedBones(p.0, p.1, r.disk[0], r.disk[i.value], r.device.touched);
    }
  }

  /** What a run empties was exposed by a cache directory of the tracker whose turn it was. */
  lemma EmptiedWasExposed(r: Run, device: Device, i: nat, q: Path) returns (place: Place)
    requires IsCacheRun(r) && SameCaches(device, r.device) && i < |r.moves| && EmptiesAt(r, i, q)
    ensures q in r.disk[0] && IsFile(r.disk[0], q)
    ensures ExposedBy(device, r.paths, r.disk[0], Taker(r, i), place, r.disk[0][q].ino)
  {
    var s := TakenFrom(r, i);
    place := SpotBones(r, s, device);
    SpotIsShown(r, s);
    RunDwindled(r, i);
    assert Spent(r.disk[i][q]) == Spent(r.disk[0][q]);
    TruncatedWasExposed(r.disk[0], r.disk[i], s.place, Taken(r, i), r.disk[0][q].ino);
    SameExposure(r.disk[0], s.place, place, r.disk[0][q].ino);
  }

  // ----- A run that purges a given item first

  /** The tree with new times: what is at or below `first` was modified at 0 and everything else at 1. */
  ghost function Aged(n: Node, path: Path, first: Path): Node
    decreases n
  {
    var mtime := if first <= path then 0 else 1;
    match n
    case Leaf(name, kind, stat) => Leaf(name, kind, stat.(mtime := mtime))
    case Dir(name, stat, xattrs, children) => Dir(name, stat.(mtime := mtime), xattrs, AgedAll(children, path, first))
  }

  ghost function AgedAll(children: seq<Node>, path: Path, first: Path): seq<Node>
    decreases children
  {
    if children == [] then []
    else [Aged(children[0], path + [children[0].name], first)] + AgedAll(children[1..], path, first)
  }

  lemma {:induction false} TimelessAged(n: Node, path: Path, first: Path)
    ensures Timeless(Aged(n, path, first)) == Timeless(n)
    decreases n
  {
    if n.Dir? {
      TimelessAgedAll(n.children, path, first);
    }
  }

  lemma {:induction false} TimelessAgedAll(children: seq<Node>, path: Path, first: Path)
    ensures TimelessAll(AgedAll(children, path, first)) == TimelessAll(children)
    decreases children
  {
    if children != [] {
      TimelessAged(children[0], path + [children[0].name], first);
      TimelessAgedAll(children[1..], path, first);
      assert AgedAll(children, path, first)[1..] == AgedAll(children[1..], path, first);
    }
  }

  ghost predicate AgedStamp(s: (Path, int), first: Path) {
    s.1 == if first <= s.0 then 0 else 1
  }

  lemma {:induction false} AgedStamps(n: Node, path: Path, first: Path)
    ensures forall s <- Stamps(Aged(n, path, first), path) :: AgedStamp(s, first)
    decreases n
  {
    if n.Dir? {
      AgedAllStamps(n.children, path, first);
    }
  }

  lemma {:induction false} AgedAllStamps(children: seq<Node>, path: Path, first: Path)
    ensures forall s <- StampsAll(AgedAll(children, path, first), path) :: AgedStamp(s, first)
    decreases children
  {
    if children != [] {
      var oldest := Aged(children[0], path + [children[0].name], first);
      assert oldest.name == children[0].name;
      assert AgedAll(children, path, first)[1..] == AgedAll(children[1..], path, first);
      AgedStamps(children[0], path + [children[0].name], first);
      AgedAllStamps(children[1..], path, first);
    }
  }

  /** The device with aged trees; the quota service has an answer, nothing, for every UID but `walked`. */
  ghost function AgedDevice(device: Device, first: Path, walked: int): Device {
    device.(tree := p => if device.tree(p).Some? then Some(Aged(device.tree(p).value, p, first)) else None,
            quotaSupported := true, cacheGid := uid => if uid == walked then -1 else 0, extCacheGid := uid => 0,
            space := gid => 0)
  }

  lemma AgedIsSame(device: Device, first: Path, walked: int)
    ensures SameCaches(device, AgedDevice(device, first, walked))
  {
    forall p: Path ensures SameButTimes(device.tree(p), AgedDevice(device, first, walked).tree(p)) {
      if device.tree(p).Some? {
        TimelessAged(device.tree(p).value, p, first);
      }
    }
  }

  ghost predicate IsAged(device: Device, first: Path, place: Place) {
    device.tree(place.1).Some? && place.0 == Aged(device.tree(place.1).value, place.1, first)
  }

  lemma {:induction false} AgedPlaces(device: Device, first: Path, walked: int, dataPaths: seq<Path>)
    ensures forall place <- Places(AgedDevice(device, first, walked), dataPaths) :: IsAged(device, first, place)
  {
    if dataPaths != [] {
      AgedPlaces(device, first, walked, dataPaths[..|dataPaths| - 1]);
    }
  }

  lemma NewestStamp(stamps: set<(Path, int)>, item: Item, first: Path, own: (Path, int))
    requires AsNewAs(item, stamps) && forall s <- stamps :: AgedStamp(s, first)
    requires own in stamps && own.0 == item.path
    ensures item.modified == if first <= item.path then 0 else 1
  {
    assert item.path <= own.0 && AgedStamp(own, first);
    var s :| s in stamps && item.path <= s.0 && s.1 == item.modified;
    assert AgedStamp(s, first);
  }

  /** The items at and below `first` are older than all others. */
  lemma FirstIsOldest(fs: Files, device: Device, place: Place, item: Item, first: Path)
    requires IsAged(device, first, place) && DistinctNames(place.0) && Mirrors(fs, place.0, place.1)
    requires item in LoadTree(place.0, place.1)
    ensures item.modified == if first <= item.path then 0 else 1
  {
    var root, path := place.0, place.1;
    ModifiedIsNewest(root, path);
    AgedStamps(device.tree(path).value, path, first);
    S.TreeIsMarked(fs, root, path);
    var own := S.FileHasStamp(fs, root, path, item.path);
    NewestStamp(Stamps(root, path), item, first, own);
  }

  /** One of them is sorted to the end, so it is purged first. */
  lemma OldestIsLast(items: seq<Item>, sorted: seq<Item>, k: nat, first: Path)
    requires Arranges(items, sorted) && k < |items| && first <= items[k].path
    requires forall item <- items :: item.modified == if first <= item.path then 0 else 1
    ensures sorted != [] && sorted[|sorted| - 1] in items && first <= sorted[|sorted| - 1].path
  {
    assert items[k] in multiset(sorted);
    var i :| 0 <= i < |sorted| && sorted[i] == items[k];
    var last := sorted[|sorted| - 1];
    assert last in multiset(items);
    assert i == |sorted| - 1 || !Before(last, sorted[i]);
  }

  /** Places whose trees mirror a file system and were aged. */
  ghost predicate AgedIn(fs: Files, device: Device, places: seq<Place>, first: Path) {
    Separate(places) && forall p <- places :: Mirrors(fs, p.0, p.1) && IsAged(device, first, p)
  }

  lemma AgedShows(fs: Files, device: Device, paths: F.DataPaths, u: int, first: Path, walked: int)
    requires F.Shows(device, fs) && Apart(device, paths) && u in paths
    ensures AgedIn(fs, device, Places(AgedDevice(device, first, walked), paths[u]), first)
  {
    var aged := AgedDevice(device, first, walked);
    AgedIsSame(device, first, walked);
    SameShows(device, aged, fs);
    SameApart(device, aged, paths);
    F.PlacesShow(aged, fs, paths[u]);
    AgedPlaces(device, first, walked, paths[u]);
  }

  lemma AgedTimes(fs: Files, device: Device, places: seq<Place>, first: Path)
    requires AgedIn(fs, device, places, first)
    ensures forall x <- LoadPlaces(places) :: x.modified == if first <= x.path then 0 else 1
  {
    forall x <- LoadPlaces(places) ensures x.modified == if first <= x.path then 0 else 1 {
      var i := ItemFromPlace(places, x);
      assert places[i] in places;
      FirstIsOldest(fs, device, places[i], x, first);
    }
  }

  lemma {:induction false} PlaceHasItem(places: seq<Place>, place: Place, item: Item) returns (k: nat)
    requires place in places && item in LoadTree(place.0, place.1)
    ensures k < |LoadPlaces(places)| && LoadPlaces(places)[k] == item
  {
    if place == places[0] {
      k :| 0 <= k < |LoadTree(place.0, place.1)| && LoadTree(place.0, place.1)[k] == item;
    } else {
      k := PlaceHasItem(places[1..], place, item);
      k := k + |LoadTree(places[0].0, places[0].1)|;
    }
  }

  /** An item at or below the path of a group item, or of a lone one, is that item. */
  lemma NothingElseBelow(fs: Files, place: Place, item: Item, other: Item)
    requires Mirrors(fs, place.0, place.1) && DistinctNames(place.0)
    requires item in LoadTree(place.0, place.1) && other in LoadTree(place.0, place.1)
    requires (item.group || !item.directory) && item.path <= other.path
    ensures other == item
  {
    if item.group {
      S.NothingInGroup(fs, place.0, place.1, item, other);
    } else {
      S.TreeIsMarked(fs, place.0, place.1);
      S.MirroredIsClosed(fs, place.0, place.1);
      FileIsBottom(fs, place.1, item.path);
      assert other.path in Subtree(fs, item.path);
      var s := S.FileHasStamp(fs, place.0, place.1, item.path);
      ExactCoverage(place.0, place.1);
      S.OnlyOwner(LoadTree(place.0, place.1), item, other, item.path);
    }
  }

  /** The last of these sorted items, which is purged first, has this path and these marks. */
  ghost predicate Takes(sorted: seq<Item>, item: Item) {
    && sorted != []
    && var last := sorted[|sorted| - 1];
       last.path == item.path && last.directory == item.directory && last.tombstone == item.tombstone
  }

  /** In places aged for it, a group item or a lone item is purged first. */
  lemma FirstIsTaken(fs: Files, device: Device, places: seq<Place>, sorted: seq<Item>, here: Place, mine: Item)
    requires AgedIn(fs, device, places, mine.path) && here in places && mine in LoadTree(here.0, here.1)
    requires (mine.group || !mine.directory) && Arranges(LoadPlaces(places), sorted)
    ensures Takes(sorted, mine)
  {
    AgedTimes(fs, device, places, mine.path);
    var k := PlaceHasItem(places, here, mine);
    OldestIsLast(LoadPlaces(places), sorted, k, mine.path);
    var last := sorted[|sorted| - 1];
    var i := ItemFromPlace(places, last);
    assert places[i] in places;
    SamePlaceBelow(places, here, places[i], mine, last);
    NothingElseBelow(fs, here, mine, last);
  }

  lemma SamePlaceBelow(places: seq<Place>, a: Place, b: Place, x: Item, y: Item)
    requires Separate(places) && a in places && b in places
    requires x in LoadTree(a.0, a.1) && y in LoadTree(b.0, b.1) && x.path <= y.path
    ensures a == b
  {
    ItemIsBelow(a.0, a.1, x);
    ItemIsBelow(b.0, b.1, y);
    Comparable(a.1, b.1, y.path);
    PlaceOnce(places, a, b);
  }

  lemma {:induction false} SeenAtStart(device: Device, fs: Files, dataPaths: seq<Path>)
    requires F.Shows(device, fs)
    ensures Places(Seen(device, fs, fs), dataPaths) == Places(device, dataPaths)
  {
    if dataPaths != [] {
      var last := |dataPaths| - 1;
      SeenAtStart(device, fs, dataPaths[..last]);
      PlaceAtStart(device, fs, device.cache(dataPaths[last]));
      PlaceAtStart(device, fs, device.codeCache(dataPaths[last]));
    }
  }

  lemma PlaceAtStart(device: Device, fs: Files, path: Path)
    requires F.Shows(device, fs)
    ensures PlaceOf(Seen(device, fs, fs), path) == PlaceOf(device, path)
  {
    if device.tree(path).Some? {
      PrunedSelf(device.tree(path).value, path, fs, device.touched);
    }
  }

  /** An item of a cache directory of tracker `u`, that is purged as a whole. */
  ghost predicate Whole(device: Device, paths: F.DataPaths, u: int, place: Place, item: Item) {
    && u in paths && place in Places(device, paths[u]) && item in LoadTree(place.0, place.1)
    && (item.group || !item.directory)
  }

  /** The first purge from aged caches takes the item they were aged for. */
  lemma FirstPurge(fs: Files, device: Device, paths: F.DataPaths, u: int, place: Place, item: Item, walked: int)
    requires F.Shows(device, fs) && Apart(device, paths) && Whole(device, paths, u, place, item)
    ensures Takes(LoadedItems(AgedDevice(device, item.path, walked), paths[u]), item)
  {
    var aged := AgedDevice(device, item.path, walked);
    AgedShows(fs, device, paths, u, item.path, walked);
    AgedIsSame(device, item.path, walked);
    LoadedArranges(aged, paths[u]);
    var here := SamePlaceOf(device, aged, paths[u], place);
    SameBones(place.0, here.0);
    var mine := SameItem(place.0, here.0, here.1, item);
    FirstIsTaken(fs, device, Places(aged, paths[u]), LoadedItems(aged, paths[u]), here, mine);
  }

  /** A quota so large that the tracker `walked` is far below it. */
  ghost function Quotas(device: Device, paths: F.DataPaths, walked: int): map<int, int> {
    if walked in paths then map[walked := 1 + Bounce.OVER_QUOTA * TreeStats(device, paths[walked])] else map[]
  }

  lemma NoRatio(device: Device, paths: F.DataPaths, first: Path, walked: int, u: int)
    requires u in paths
    ensures var aged := AgedDevice(device, first, walked);
            Bounce.RatioOf(F.StartValues(aged, paths, Quotas(aged, paths, walked))[u]) == 0
  {
    var aged := AgedDevice(device, first, walked);
    var t := F.StartValues(aged, paths, Quotas(aged, paths, walked))[u];
    if u == walked {
      SmallRatio(t.used, t.quota);
    } else {
      assert Bounce.TruncatingDiv(0 * Bounce.OVER_QUOTA, t.quota) == 0;
    }
  }

  lemma SmallRatio(used: int, quota: int)
    requires used >= 0 && quota == 1 + Bounce.OVER_QUOTA * used
    ensures Bounce.Ratio(used, quota) == 0
  {
    var q := Bounce.TruncatingDiv(used * Bounce.OVER_QUOTA, quota);
    assert quota * q <= used * Bounce.OVER_QUOTA < quota * q + quota;
    Bounce.LessByProduct(quota, q, 1);
    Bounce.LessByProduct(quota, -1, q);
  }

  /** The start of the run: nobody is near a quota, and one byte is missing. */
  ghost function Started(device: Device, paths: F.DataPaths, first: Path, walked: int): Bounce.State {
    var aged := AgedDevice(device, first, walked);
    F.StartState(F.StartValues(aged, paths, Quotas(aged, paths, walked)), 1)
  }

  /** Nothing is over quota yet, and quotas are defied. */
  ghost predicate Idle(c: Bounce.Config, s: Bounce.State) {
    && Bounce.Start(c, s) && c.defyQuota && c.reserved == 0 && s.needed == 1
    && forall v <- s.trackers.Keys :: Bounce.RatioOf(s.trackers[v]) == 0
  }

  lemma StartedIsIdle(device: Device, paths: F.DataPaths, first: Path, walked: int) returns (c: Bounce.Config)
    ensures Idle(c, Started(device, paths, first, walked))
  {
    var start := Started(device, paths, first, walked);
    c := Bounce.Config(1, 0, true, Bounce.Sum(Bounce.UsedMap(start.trackers)));
    forall v <- start.trackers.Keys ensures Bounce.RatioOf(start.trackers[v]) == 0 {
      NoRatio(device, paths, first, walked, v);
    }
  }

  /** Any tracker can become active first. */
  lemma Swapped(c: Bounce.Config, start: Bounce.State, u: int, items: seq<Item>) returns (s: Bounce.State)
    requires Idle(c, start) && u in start.trackers && Bounce.CanLoad(start.trackers[u], items)
    ensures Bounce.Next(c, start, Bounce.Swap(u, items), s)
    ensures Bounce.Known(s) && s.active == Some(u) && !Bounce.NextBetter(s) && !Bounce.Halted(c, s)
    ensures s.trackers == start.trackers[u := Bounce.Loaded(start.trackers[u], items)]
  {
    assert u in Bounce.Pool(start) && !Bounce.Exhausted(start);
    assert Bounce.IsTop(start.trackers, Bounce.Pool(start), u);
    s := F.Activated(start, u, items);
    F.SwapIsNext(c, start, u, items);
    Bounce.SwapKeepsPool(start, u, items, s);
  }

  /** It purges its last item. */
  lemma LastPurged(c: Bounce.Config, s: Bounce.State, u: int, item: Item) returns (s': Bounce.State)
    requires Bounce.Known(s) && !Bounce.Halted(c, s) && !Bounce.NextBetter(s) && s.active == Some(u)
    requires F.Takes(s, item)
    ensures Bounce.Next(c, s, Bounce.Take(0), s')
    ensures s'.trackers == s.trackers[u := Bounce.Purged(s.trackers[u])]
  {
    s' := F.TakeIsNext(c, s, 0, item, s.trackers[u := Bounce.Purged(s.trackers[u])],
                       if s.needed - item.size <= 0 then c.target - 0 else s.needed - item.size,
                       s.cleared + item.size);
  }

  ghost function TwoDisks(fs: Files, item: Item): seq<Files> {
    [fs, fs, PurgedFiles(fs, item.path, item.directory, item.tombstone)]
  }

  lemma TwoMoves(x: F.Call, c: Bounce.Config, s0: Bounce.State, u: int, s1: Bounce.State, s2: Bounce.State,
                 items: seq<Item>, item: Item)
    requires Bounce.Start(c, s0) && Bounce.Next(c, s0, Bounce.Swap(u, items), s1)
    requires Bounce.Next(c, s1, Bounce.Take(0), s2) && F.Takes(s1, item)
    requires !x.noop && F.Loads(x, s0, Bounce.Swap(u, items), x.start)
    ensures Bounce.IsRun(c, [s0, s1, s2], [Bounce.Swap(u, items), Bounce.Take(0)])
    ensures F.IsDiskRun(x, [s0, s1, s2], [Bounce.Swap(u, items), Bounce.Take(0)], TwoDisks(x.start, item))
  {
    var states, moves, disk := [s0, s1, s2], [Bounce.Swap(u, items), Bounce.Take(0)], TwoDisks(x.start, item);
    assert Bounce.StepAt(c, states, moves, 0) && Bounce.StepAt(c, states, moves, 1);
    assert F.DiskAt(x, states, moves, disk, 0);
    assert F.ItemPurged(item, disk[1], disk[2], false);
    assert F.DiskAt(x, states, moves, disk, 1);
  }

  /** The tracker `u` becomes active and purges its last item. */
  lemma SwapAndTake(x: F.Call, c: Bounce.Config, start: Bounce.State, u: int, items: seq<Item>)
    returns (states: seq<Bounce.State>, moves: seq<Bounce.Move>)
    requires Idle(c, start) && u in start.trackers && Bounce.CanLoad(start.trackers[u], items) && items != []
    requires !x.noop && F.Loads(x, start, Bounce.Swap(u, items), x.start)
    ensures |moves| == 2 && moves[0].Swap? && moves[0].uid == u && moves[1].Take?
    ensures Bounce.IsRun(c, states, moves) && states[0] == start
    ensures F.IsDiskRun(x, states, moves, TwoDisks(x.start, items[|items| - 1]))
    ensures states[1].trackers == start.trackers[u := Bounce.Loaded(start.trackers[u], items)]
    ensures u in states[1].trackers && states[1].trackers[u].items == items
    ensures states[2].trackers == states[1].trackers[u := Bounce.Purged(states[1].trackers[u])]
  {
    var s1 := Swapped(c, start, u, items);
    var last := items[|items| - 1];
    var s2 := LastPurged(c, s1, u, last);
    TwoMoves(x, c, start, u, s1, s2, items, last);
    states, moves := [start, s1, s2], [Bounce.Swap(u, items), Bounce.Take(0)];
  }

  /** Moves over aged caches make a run from the caches as they were. */
  lemma AgedRun(r: Run, device: Device, paths: F.DataPaths, fs: Files, first: Path, walked: int)
    requires F.Shows(device, fs) && Apart(device, paths)
    requires r.device == AgedDevice(device, first, walked) && r.paths == paths
    requires r.quotas == Quotas(r.device, paths, walked) && r.disk != [] && r.disk[0] == fs
    requires Bounce.IsRun(r.c, r.states, r.moves) && r.states[0] == Started(device, paths, first, walked)
    requires F.IsDiskRun(CallOf(r), r.states, r.moves, r.disk)
    ensures RunsFrom(r, device, paths, fs)
  {
    AgedIsSame(device, first, walked);
    SameShows(device, r.device, fs);
    SameApart(device, r.device, paths);
  }

  /** Two moves: the tracker `u` becomes active and purges the given item, and no other tracker has loaded anything. */
  ghost predicate PurgesFirst(r: Run, fs: Files, u: int, item: Item) {
    && |r.moves| == 2 && |r.states| == 3 && |r.disk| == 3 && r.disk[0] == fs
    && PurgeEffect(fs, r.disk[2], item.path, item.directory, item.tombstone)
    && (forall v <- r.states[2].trackers.Keys | v != u :: !r.states[2].trackers[v].loaded)
  }

  /** For every whole item there is a run from the same caches that purges it first. */
  lemma ItemRun(device: Device, paths: F.DataPaths, fs: Files, u: int, place: Place, item: Item, walked: int)
    returns (r: Run)
    requires F.Shows(device, fs) && Apart(device, paths) && Whole(device, paths, u, place, item)
    ensures RunsFrom(r, device, paths, fs) && PurgesFirst(r, fs, u, item)
    ensures r.device == AgedDevice(device, item.path, walked)
  {
    var aged := AgedDevice(device, item.path, walked);
    var start, items := Started(device, paths, item.path, walked), LoadedItems(aged, paths[u]);
    FirstPurge(fs, device, paths, u, place, item, walked);
    LoadsFirst(device, paths, fs, u, item.path, walked);
    var c := StartedIsIdle(device, paths, item.path, walked);
    var x := F.Call(aged, fs, paths, false);
    var states, moves := SwapAndTake(x, c, start, u, items);
    r := Run(aged, paths, Quotas(aged, paths, walked), c, states, moves, TwoDisks(fs, items[|items| - 1]));
    assert CallOf(r) == x;
    AgedRun(r, device, paths, fs, item.path, walked);
    IsFirst(r, fs, u, items, item);
  }

  lemma IsFirst(r: Run, fs: Files, u: int, items: seq<Item>, item: Item)
    requires |r.moves| == 2 && |r.states| == 3 && Takes(items, item) && r.disk == TwoDisks(fs, items[|items| - 1])
    requires forall v <- r.states[0].trackers.Keys :: !r.states[0].trackers[v].loaded
    requires u in r.states[0].trackers && u in r.states[1].trackers && r.states[1].trackers[u].items != []
    requires r.states[1].trackers == r.states[0].trackers[u := Bounce.Loaded(r.states[0].trackers[u], items)]
    requires r.states[2].trackers == r.states[1].trackers[u := Bounce.Purged(r.states[1].trackers[u])]
    ensures PurgesFirst(r, fs, u, item)
  {
  }

  /** At the start, loading finds the items of the aged trees themselves. */
  lemma LoadsFirst(device: Device, paths: F.DataPaths, fs: Files, u: int, first: Path, walked: int)
    requires F.Shows(device, fs) && u in paths
    ensures var aged, start := AgedDevice(device, first, walked), Started(device, paths, first, walked);
            var items := LoadedItems(aged, paths[u]);
            && u in start.trackers && Bounce.CanLoad(start.trackers[u], items)
            && F.Loads(F.Call(aged, fs, paths, false), start, Bounce.Swap(u, items), fs)
            && forall v <- start.trackers.Keys :: !start.trackers[v].loaded
  {
    var aged := AgedDevice(device, first, walked);
    AgedIsSame(device, first, walked);
    SameShows(device, aged, fs);
    SeenAtStart(aged, fs, paths[u]);
  }

  // ----- What is exposed, a run empties

  /** Some whole item's purge empties an exposed inode. */
  lemma ExposingItem(fs: Files, place: Place, ino: nat) returns (item: Item)
    requires Mirrors(fs, place.0, place.1) && DistinctNames(place.0) && Exposes(fs, place, ino)
    ensures item in LoadTree(place.0, place.1) && (item.group || !item.directory)
    ensures ino in Truncated(fs, item.path, item.directory, item.tombstone)
  {
    S.TreeIsMarked(fs, place.0, place.1);
    S.MirroredIsClosed(fs, place.0, place.1);
    if exists p :: p in fs && Spared(fs, place.1, false, p) && fs[p].ino == ino {
      var p :| p in fs && Spared(fs, place.1, false, p) && fs[p].ino == ino;
      item := SparedOwner(fs, place, p);
    } else {
      item :| item in LoadTree(place.0, place.1) && LeadsTo(fs, item, ino);
    }
  }

  /** The item that a regular file in a tombstoned directory belongs to truncates it. */
  lemma SparedOwner(fs: Files, place: Place, p: Path) returns (item: Item)
    requires Mirrors(fs, place.0, place.1) && DistinctNames(place.0) && Spared(fs, place.1, false, p)
    ensures item in LoadTree(place.0, place.1) && (item.group || !item.directory)
    ensures fs[p].ino in Truncated(fs, item.path, item.directory, item.tombstone)
  {
    S.TreeIsMarked(fs, place.0, place.1);
    S.MirroredIsClosed(fs, place.0, place.1);
    var s := S.FileHasStamp(fs, place.0, place.1, p);
    ExactCoverage(place.0, place.1);
    var i := S.OwnerOf(LoadTree(place.0, place.1), p);
    item := LoadTree(place.0, place.1)[i];
    if item.path != p {
      AncestorOf(fs, place.1, item.path, p);
      SparedBelow(fs, place.1, item.path, p);
    }
  }

  /**
    Exactly when freeCache leaves a file outside the cache directories as it is,
    in every run and at every point of it, whatever the modification times, the
    quotas and the library's sort: unless it is a regular file with contents that
    shares its inode with a regular file in a tombstoned directory of a cache, in
    a group or not, or with a file that a lone tombstoned link there leads to.
  */
  lemma OutsideIsSafe(device: Device, paths: F.DataPaths, fs: Files, q: Path)
    requires F.Shows(device, fs) && Apart(device, paths) && Outside(device, paths, q)
    ensures (forall r: Run, j: nat | RunsFrom(r, device, paths, fs) && j <= |r.moves| :: Same(fs, r.disk[j], q))
            <==> !(IsFile(fs, q) && !fs[q].empty && Exposed(device, paths, fs, None, fs[q].ino))
  {
    if IsFile(fs, q) && !fs[q].empty && Exposed(device, paths, fs, None, fs[q].ino) {
      var r := OutsideEmptied(device, paths, fs, q);
      assert !Same(fs, r.disk[2], q);
    } else {
      forall r: Run, j: nat | RunsFrom(r, device, paths, fs) && j <= |r.moves| ensures Same(fs, r.disk[j], q) {
        OutsideKept(r, device, paths, fs, j, q);
      }
    }
  }

  lemma OutsideKept(r: Run, device: Device, paths: F.DataPaths, fs: Files, j: nat, q: Path)
    requires RunsFrom(r, device, paths, fs) && j <= |r.moves| && Outside(device, paths, q)
    requires !(IsFile(fs, q) && !fs[q].empty && Exposed(device, paths, fs, None, fs[q].ino))
    ensures Same(fs, r.disk[j], q)
  {
    SameOutside(device, r.device, paths, q);
    OnlyCachesChange(r, j, q);
    if EmptiedBefore(r, j, q) {
      var i :| 0 <= i < j && EmptiesAt(r, i, q);
      var place := EmptiedWasExposed(r, device, i, q);
    }
  }

  /** A file whose inode is exposed has a run that empties it. */
  lemma OutsideEmptied(device: Device, paths: F.DataPaths, fs: Files, q: Path) returns (r: Run)
    requires F.Shows(device, fs) && Apart(device, paths) && Outside(device, paths, q)
    requires IsFile(fs, q) && Exposed(device, paths, fs, None, fs[q].ino)
    ensures RunsFrom(r, device, paths, fs) && |r.moves| == 2
    ensures q in r.disk[2] && r.disk[2][q] == Spent(fs[q])
  {
    var u, place :| ExposedBy(device, paths, fs, u, place, fs[q].ino);
    F.PlacesShow(device, fs, paths[u]);
    assert Separate(Places(device, paths[u]));
    var item := ExposingItem(fs, place, fs[q].ino);
    r := ItemRun(device, paths, fs, u, place, item, 0);
    ItemIsBelow(place.0, place.1, item);
    assert !(item.path <= q);
    PurgeLeaves(fs, r.disk[2], item.path, item.directory, item.tombstone, q);
  }

  // ----- Inputs on which a file outside is emptied

  const STAT := Stat(0, 0, 0, 0, 0)

  /** A symbolic link to the file `f`, and a hard link to it. */
  const SOFT_LINK := Plain(Symlink, false, Link(true, ["f"]), 2)
  const HARD_LINK := Plain(Regular, false, NO_LINK, 1)

  /** A cache directory with a tombstoned directory `t` in it, which holds an entry `x`. */
  ghost function LinkedTree(kind: Kind): Node {
    Dir("cache", STAT, Xattrs(false, false, 0, 0),
        [Dir("t", STAT, Xattrs(false, true, 0, 0), [Leaf("x", kind, STAT)])])
  }

  ghost function LinkedPlace(kind: Kind): Place {
    (LinkedTree(kind), ["cache"])
  }

  ghost function LinkedDevice(kind: Kind): Device {
    Device(p => if p == ["cache"] then Some(LinkedTree(kind)) else None, (p, now) => 0, p => ["cache"], p => ["code"],
           false, uid => -1, uid => -1, gid => -1, n => Insertion)
  }

  /** The file `f` lies outside. */
  ghost function LinkedFiles(link: Inode): Files {
    map[[] := Folder(false), ["f"] := Plain(Regular, false, NO_LINK, 1), ["cache"] := Folder(false),
        ["cache", "t"] := Folder(true), ["cache", "t", "x"] := link]
  }

  lemma OneChild(c: Node)
    requires DistinctNames(c)
    ensures DistinctAll([c])
  {
    assert [c][1..] == [];
  }

  lemma MirrorsOne(fs: Files, n: Node, c: Node, path: Path, below: Path)
    requires n.Dir? && n.children == [c] && DistinctNames(c) && path in fs && fs[path] == Folder(n.xattrs.tombstone)
    requires below == path + [c.name] && Mirrors(fs, c, below)
    requires forall q <- fs.Keys | path < q :: below <= q
    ensures Mirrors(fs, n, path)
  {
    OneChild(c);
    assert c in n.children;
  }

  /** What a file system holds at and below the cache directory. */
  ghost predicate HoldsLinked(fs: Files, link: Inode) {
    && ["cache"] in fs && fs[["cache"]] == Folder(false)
    && ["cache", "t"] in fs && fs[["cache", "t"]] == Folder(true)
    && ["cache", "t", "x"] in fs && fs[["cache", "t", "x"]] == link
    && (forall q <- fs.Keys | ["cache"] < q :: q == ["cache", "t"] || q == ["cache", "t", "x"])
  }

  lemma LinkedMirrors(fs: Files, link: Inode)
    requires link.Plain? && HoldsLinked(fs, link)
    ensures Mirrors(fs, LinkedTree(link.kind), ["cache"])
  {
    var t := LinkedTree(link.kind).children[0];
    var x := t.children[0];
    assert Mirrors(fs, x, ["cache", "t", "x"]);
    OneChild(x);
    MirrorsOne(fs, t, x, ["cache", "t"], ["cache", "t", "x"]);
    MirrorsOne(fs, LinkedTree(link.kind), t, ["cache"], ["cache", "t"]);
  }

  lemma LinkedIsShown(link: Inode)
    requires link.Plain?
    ensures F.Shows(LinkedDevice(link.kind), LinkedFiles(link))
  {
    assert HoldsLinked(LinkedFiles(link), link);
    LinkedMirrors(LinkedFiles(link), link);
  }

  lemma LinkedPlaces(kind: Kind, paths: F.DataPaths)
    requires paths == map[1 := [["d"]]]
    ensures Places(LinkedDevice(kind), paths[1]) == [LinkedPlace(kind)]
  {
    assert [["d"]][..0] == [];
    assert Places(LinkedDevice(kind), [["d"]]) == [LinkedPlace(kind)];
  }

  lemma LinkedIsDistinct(kind: Kind)
    ensures DistinctNames(LinkedTree(kind))
  {
    OneChild(LinkedTree(kind).children[0].children[0]);
    OneChild(LinkedTree(kind).children[0]);
  }

  lemma LinkedIsApart(kind: Kind, paths: F.DataPaths)
    requires paths == map[1 := [["d"]]]
    ensures Apart(LinkedDevice(kind), paths)
  {
    LinkedPlaces(kind, paths);
    LinkedIsDistinct(kind);
    OneSeparate(LinkedPlace(kind));
  }

  lemma OneSeparate(place: Place)
    requires DistinctNames(place.0)
    ensures Separate([place])
  {
  }

  lemma LinkIsExposed(link: Inode)
    requires link == SOFT_LINK || link == HARD_LINK
    ensures Exposes(LinkedFiles(link), LinkedPlace(link.kind), 1)
  {
    var fs, x := LinkedFiles(link), ["cache", "t", "x"];
    if link == SOFT_LINK {
      LinkTarget();
      var item := LinkedItem(Symlink);
      assert LeadsTo(fs, item, 1);
    } else {
      assert ParentOf(x) == ["cache", "t"] && ParentOf(["cache", "t"]) == ["cache"];
      assert Spared(fs, ["cache"], false, x);
    }
  }

  lemma LinkTarget()
    ensures TruncateTarget(LinkedFiles(SOFT_LINK), ["cache", "t", "x"]) == Some(["f"])
  {
    var fs, x := LinkedFiles(SOFT_LINK), ["cache", "t", "x"];
    assert Reach(fs, x, [], MAX_LINKS) == Resolve(fs, [], ["f"] + [], MAX_LINKS - 1);
    assert Resolve(fs, [], ["f"], MAX_LINKS - 1) == Reach(fs, [] + ["f"], [], MAX_LINKS - 1);
    assert [] + ["f"] == ["f"] && ["f"] + [] == ["f"];
    assert Reach(fs, ["f"], [], MAX_LINKS - 1) == Some(["f"]);
  }

  lemma LinkedItem(kind: Kind) returns (item: Item)
    ensures item in LoadTree(LinkedTree(kind), ["cache"])
    ensures item.path == ["cache", "t", "x"] && !item.directory && item.tombstone
  {
    var t := LinkedTree(kind).children[0];
    var x := t.children[0];
    item := Item(["cache", "t", "x"], 2, false, false, true, 0, 0);
    assert [t][1..] == [] && [x][1..] == [];
    assert ["cache", "t"] + ["x"] == item.path && ["cache"] + ["t"] == ["cache", "t"];
    assert Load(x, item.path, 2, true) == [item];
    assert LoadAll([x], ["cache", "t"], 1, true) == [item] + [];
    assert item in Load(t, ["cache", "t"], 1, false);
    assert LinkedTree(kind).children == [t];
    assert LoadAll([t], ["cache"], 0, false) == Load(t, ["cache"] + ["t"], 1, false) + LoadAll([], ["cache"], 0, false);
  }

  lemma LinkedIsOutside(kind: Kind, paths: F.DataPaths)
    requires paths == map[1 := [["d"]]]
    ensures Outside(LinkedDevice(kind), paths, ["f"])
  {
    LinkedPlaces(kind, paths);
    assert !(["cache"] < ["f"]);
  }

  /** A run of freeCache empties `f`, through a symbolic link just as through a hard link. */
  lemma FileOutsideEmptied(link: Inode) returns (r: Run)
    requires link == SOFT_LINK || link == HARD_LINK
    ensures RunsFrom(r, LinkedDevice(link.kind), map[1 := [["d"]]], LinkedFiles(link))
    ensures Outside(LinkedDevice(link.kind), map[1 := [["d"]]], ["f"])
    ensures |r.moves| == 2 && ["f"] in r.disk[2] && r.disk[2][["f"]] == Plain(Regular, true, NO_LINK, 1)
  {
    var device, fs, paths: F.DataPaths := LinkedDevice(link.kind), LinkedFiles(link), map[1 := [["d"]]];
    LinkedIsShown(link);
    LinkedIsApart(link.kind, paths);
    LinkedIsOutside(link.kind, paths);
    LinkedIsExposed(link, paths);
    LinkedFile(link);
    r := OutsideEmptied(device, paths, fs, ["f"]);
  }

  lemma LinkedFile(link: Inode)
    ensures ["f"] in LinkedFiles(link) && LinkedFiles(link)[["f"]] == Plain(Regular, false, NO_LINK, 1)
  {
    assert ["f"][0] != "cache";
  }

  lemma LinkedIsExposed(link: Inode, paths: F.DataPaths)
    requires link == SOFT_LINK || link == HARD_LINK
    requires paths == map[1 := [["d"]]]
    ensures Exposed(LinkedDevice(link.kind), paths, LinkedFiles(link), None, 1)
  {
    LinkedPlaces(link.kind, paths);
    LinkIsExposed(link);
    assert LinkedPlace(link.kind) in Places(LinkedDevice(link.kind), paths[1]);
    assert ExposedBy(LinkedDevice(link.kind), paths, LinkedFiles(link), 1, LinkedPlace(link.kind), 1);
  }
}
