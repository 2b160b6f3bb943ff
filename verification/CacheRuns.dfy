/**
  Whole runs of freeCache over the file system. Seen from one cache directory, a
  run of the bounce loop with all its trackers is the popping of that
  directory's own sorted items from the back, so what PurgeSafety says of
  popping one tree holds of every purge the loop makes.
*/
module CacheRuns {
  import opened Wrappers
  import opened Fts
  import opened CacheItems
  import opened CacheCoverage
  import opened PurgeOrder
  import opened Purge
  import opened GroupPurge
  import opened PurgeLocality
  import opened CacheTrackers
  import Bounce
  import opened SeenTrees
  import F = FreeCache
  import U = CacheUse
  import S = PurgeSafety

  /** A run of the loop: the trackers' data paths, the states, the moves, the file system between them. */
  datatype Run = Run(device: Device, paths: F.DataPaths, quotas: map<int, int>, c: Bounce.Config,
                     states: seq<Bounce.State>, moves: seq<Bounce.Move>, disk: seq<Files>)

  /** No cache directory lies in another one, of the same tracker or of a different one. */
  ghost predicate Apart(device: Device, paths: F.DataPaths) {
    && (forall u <- paths.Keys :: Separate(Places(device, paths[u])))
    && (forall u <- paths.Keys, v <- paths.Keys | u != v ::
          forall a <- Places(device, paths[u]), b <- Places(device, paths[v]) :: !(a.1 <= b.1) && !(b.1 <= a.1))
  }

  ghost function CallOf(r: Run): F.Call
    requires r.disk != []
  {
    F.Call(r.device, r.disk[0], r.paths, false)
  }

  /** What FreeCache makes, when it is not told to change nothing. */
  ghost predicate IsCacheRun(r: Run) {
    && r.disk != [] && U.IsCall(CallOf(r), r.quotas, r.c, r.states, r.moves, r.disk)
    && F.Shows(r.device, r.disk[0]) && Apart(r.device, r.paths)
  }

  ghost predicate Taking(r: Run, i: nat)
    requires IsCacheRun(r)
  {
    i < |r.moves| && r.moves[i].Take?
  }

  lemma TakesSomething(r: Run, i: nat)
    requires IsCacheRun(r) && Taking(r, i)
    ensures r.states[i].active.Some? && r.states[i].active.value in r.states[i].trackers
    ensures r.states[i].trackers[r.states[i].active.value].items != []
  {
    assert Bounce.StepAt(r.c, r.states, r.moves, i);
  }

  /** The tracker and the item of a purge. */
  ghost function Taker(r: Run, i: nat): int
    requires IsCacheRun(r) && Taking(r, i)
  {
    TakesSomething(r, i);
    r.states[i].active.value
  }

  ghost function Taken(r: Run, i: nat): Item
    requires IsCacheRun(r) && Taking(r, i)
  {
    TakesSomething(r, i);
    var items := r.states[i].trackers[Taker(r, i)].items;
    items[|items| - 1]
  }

  /** The device as a tracker's items were loaded from it, if they were. */
  ghost function DeviceAt(r: Run, u: int): Device {
    if r.disk != [] && |r.moves| < |r.states| && |r.moves| < |r.disk|
    then U.DeviceOf(CallOf(r), r.states, r.moves, r.disk, u, |r.moves|) else r.device
  }

  ghost function SortedOf(r: Run, u: int): seq<Item> {
    if u in r.paths then LoadedItems(DeviceAt(r, u), r.paths[u]) else []
  }

  ghost predicate IsLoaded(r: Run, u: int, j: nat) {
    j < |r.states| && u in r.states[j].trackers && r.states[j].trackers[u].loaded
  }

  /** How many items a tracker has left, of those that it loads when it becomes active. */
  ghost function Left(r: Run, u: int, j: nat): nat {
    if IsLoaded(r, u, j) then |r.states[j].trackers[u].items| else |SortedOf(r, u)|
  }

  lemma SortedIsLoaded(r: Run, u: int)
    requires IsCacheRun(r) && u in r.paths
    ensures SortedOf(r, u) == U.ItemsAs(r.states, r.moves, u, |r.moves|)
  {
    U.ItemsOfDevice(CallOf(r), r.quotas, r.c, r.states, r.moves, r.disk, u, |r.moves|);
  }

  lemma LeftIsPrefix(r: Run, u: int, j: nat)
    requires IsCacheRun(r) && u in r.paths && j <= |r.moves|
    ensures u in r.states[j].trackers && Left(r, u, j) <= |SortedOf(r, u)|
    ensures IsLoaded(r, u, j) ==> r.states[j].trackers[u].items == SortedOf(r, u)[..Left(r, u, j)]
  {
    U.ItemsShrinkFromBack(r.c, r.states, r.moves, j, u);
    if IsLoaded(r, u, j) {
      U.LoadedOnce(r.c, r.states, r.moves, u, j, |r.moves|);
      SortedIsLoaded(r, u);
      IsPrefix(r.states[j].trackers[u].items, SortedOf(r, u));
    }
  }

  lemma IsPrefix<T>(a: seq<T>, b: seq<T>)
    requires a <= b
    ensures a == b[..|a|]
  {
  }

  /** The trackers of a run stay the same ones. */
  lemma {:induction false} SameTrackers(c: Bounce.Config, states: seq<Bounce.State>, moves: seq<Bounce.Move>, j: nat)
    requires Bounce.IsRun(c, states, moves) && j <= |moves|
    ensures states[j].trackers.Keys == states[0].trackers.Keys
    decreases j
  {
    if j > 0 {
      SameTrackers(c, states, moves, j - 1);
      assert Bounce.StepAt(c, states, moves, j - 1);
    }
  }

  lemma NextTakes(c: Bounce.Config, s: Bounce.State, m: Bounce.Move, s': Bounce.State)
    requires Bounce.Next(c, s, m, s') && m.Take?
    ensures s.active.Some? && s.active.value in s.trackers && s.active.value in s'.trackers
    ensures var items := s.trackers[s.active.value].items;
            items != [] && s'.trackers[s.active.value].items == items[..|items| - 1]
    ensures s'.trackers[s.active.value].loaded == s.trackers[s.active.value].loaded
  {
  }

  /** The active tracker has loaded its items. */
  lemma TakerIsLoaded(r: Run, i: nat)
    requires IsCacheRun(r) && Taking(r, i)
    ensures IsLoaded(r, Taker(r, i), i)
  {
    TakesSomething(r, i);
    Bounce.RunKeepsInv(r.c, r.states, r.moves, i);
  }

  lemma TakerIsKnown(r: Run, i: nat)
    requires IsCacheRun(r) && Taking(r, i)
    ensures Taker(r, i) in r.paths && IsLoaded(r, Taker(r, i), i) && Left(r, Taker(r, i), i) > 0
    ensures Left(r, Taker(r, i), i + 1) == Left(r, Taker(r, i), i) - 1
  {
    TakerIsLoaded(r, i);
    TakesSomething(r, i);
    SameTrackers(r.c, r.states, r.moves, i);
    assert Taker(r, i) in r.states[i].trackers.Keys;
    assert Bounce.StepAt(r.c, r.states, r.moves, i);
    NextTakes(r.c, r.states[i], r.moves[i], r.states[i + 1]);
  }

  lemma LastOf(items: seq<Item>, all: seq<Item>, k: nat)
    requires 0 < k <= |all| && items == all[..k]
    ensures |items| == k && items[|items| - 1] == all[k - 1]
  {
  }

  /** A purge takes the last of the taker's remaining items. */
  lemma TakenIsLast(r: Run, i: nat)
    requires IsCacheRun(r) && Taking(r, i)
    ensures var u := Taker(r, i);
            && u in r.paths && 0 < Left(r, u, i) <= |SortedOf(r, u)|
            && Taken(r, i) == SortedOf(r, u)[Left(r, u, i) - 1]
            && Left(r, u, i + 1) == Left(r, u, i) - 1
  {
    var u := Taker(r, i);
    TakerIsKnown(r, i);
    LeftIsPrefix(r, u, i);
    LastOf(r.states[i].trackers[u].items, SortedOf(r, u), Left(r, u, i));
  }

  lemma NextKeepsItems(c: Bounce.Config, s: Bounce.State, m: Bounce.Move, s': Bounce.State, u: int)
    requires Bounce.Next(c, s, m, s') && u in s.trackers && (m.Take? ==> s.active != Some(u))
    ensures u in s'.trackers && (s.trackers[u].loaded ==> s'.trackers[u].loaded)
    ensures s.trackers[u].loaded ==> s'.trackers[u].items == s.trackers[u].items
    ensures !s.trackers[u].loaded && s'.trackers[u].loaded ==> m.Swap? && m.uid == u && s'.trackers[u].items == m.items
  {
  }

  /** Every other tracker, and every tracker at any other move, keeps its items. */
  lemma OthersKeep(r: Run, i: nat, u: int)
    requires IsCacheRun(r) && i < |r.moves| && u in r.paths
    requires Taking(r, i) ==> Taker(r, i) != u
    ensures Left(r, u, i + 1) == Left(r, u, i)
  {
    SameTrackers(r.c, r.states, r.moves, i);
    assert u in r.states[i].trackers.Keys;
    assert Bounce.StepAt(r.c, r.states, r.moves, i);
    NextKeepsItems(r.c, r.states[i], r.moves[i], r.states[i + 1], u);
    if !IsLoaded(r, u, i) && IsLoaded(r, u, i + 1) {
      LoadsAll(r, i, u);
    }
  }

  /** The move that loads a tracker's items loads all of them. */
  lemma LoadsAll(r: Run, i: nat, u: int)
    requires IsCacheRun(r) && i < |r.moves| && u in r.paths
    requires !IsLoaded(r, u, i) && IsLoaded(r, u, i + 1) && r.moves[i].Swap? && r.moves[i].uid == u
    requires u in r.states[i].trackers && r.states[i + 1].trackers[u].items == r.moves[i].items
    ensures Left(r, u, i + 1) == |SortedOf(r, u)|
  {
    SortedIsLoaded(r, u);
    U.LoadedAt(r.c, r.states, r.moves, u, i);
  }

  // ----- Which place an item is from

  /** A cache directory of one of the trackers. */
  datatype Spot = Spot(u: int, place: Place)

  ghost predicate IsSpot(r: Run, s: Spot) {
    s.u in r.paths && s.place in Places(DeviceAt(r, s.u), r.paths[s.u])
  }

  /** A cache directory that items were loaded from is one that was there at the start. */
  lemma SpotAtStart(r: Run, s: Spot) returns (p: Place)
    requires IsCacheRun(r) && IsSpot(r, s)
    ensures p in Places(r.device, r.paths[s.u]) && p.1 == s.place.1
    ensures var i := U.LoadedBy(r.states, r.moves, s.u, |r.moves|);
            s.place.0 == if i.Some? then Pruned(p.0, p.1, r.disk[0], r.disk[i.value], r.device.touched) else p.0
  {
    var i := U.LoadedBy(r.states, r.moves, s.u, |r.moves|);
    p := s.place;
    if i.Some? {
      var places, now := Places(r.device, r.paths[s.u]), r.disk[i.value];
      U.SeenPlaces(r.device, r.disk[0], now, r.paths[s.u]);
      assert U.IsSeen(r.device, r.disk[0], now, places, s.place);
      p :| p in places && p.1 == s.place.1 && s.place.0 == Pruned(p.0, p.1, r.disk[0], now, r.device.touched);
    }
  }

  lemma SpotsSeparate(r: Run, u: int)
    requires IsCacheRun(r) && u in r.paths
    ensures Separate(Places(DeviceAt(r, u), r.paths[u]))
  {
    var i := U.LoadedBy(r.states, r.moves, u, |r.moves|);
    if i.Some? {
      U.SeenSeparate(r.device, r.disk[0], r.disk[i.value], r.paths[u]);
    }
  }

  lemma ItemIsBelow(root: Node, path: Path, item: Item)
    requires item in LoadTree(root, path)
    ensures path < item.path
  {
    ItemsAllAreBelow(root.children, path, 0, false);
  }

  lemma TakenFrom(r: Run, i: nat) returns (s: Spot)
    requires IsCacheRun(r) && Taking(r, i)
    ensures IsSpot(r, s) && s.u == Taker(r, i)
    ensures Taken(r, i) in LoadTree(s.place.0, s.place.1) && s.place.1 < Taken(r, i).path
  {
    TakenIsLast(r, i);
    var u, item := Taker(r, i), Taken(r, i);
    var d := DeviceAt(r, u);
    LoadedArranges(d, r.paths[u]);
    assert item in SortedOf(r, u);
    assert item in multiset(SortedOf(r, u));
    var k := ItemFromPlace(Places(d, r.paths[u]), item);
    s := Spot(u, Places(d, r.paths[u])[k]);
    ItemIsBelow(s.place.0, s.place.1, item);
  }

  lemma PlaceOnce(places: seq<Place>, a: Place, b: Place)
    requires Separate(places) && a in places && b in places && (a.1 <= b.1 || b.1 <= a.1)
    ensures a == b
  {
    var i :| 0 <= i < |places| && places[i] == a;
    var j :| 0 <= j < |places| && places[j] == b;
  }

  /** Two spots of which one is at or above the other are the same. */
  lemma SameSpot(r: Run, s: Spot, t: Spot)
    requires IsCacheRun(r) && IsSpot(r, s) && IsSpot(r, t)
    requires s.place.1 <= t.place.1 || t.place.1 <= s.place.1
    ensures s == t
  {
    if s.u == t.u {
      SpotsSeparate(r, s.u);
      PlaceOnce(Places(DeviceAt(r, s.u), r.paths[s.u]), s.place, t.place);
    } else {
      var p := SpotAtStart(r, s);
      var q := SpotAtStart(r, t);
      OtherTracker(r.device, r.paths, Spot(s.u, p), Spot(t.u, q));
    }
  }

  lemma OtherTracker(device: Device, paths: F.DataPaths, s: Spot, t: Spot)
    requires Apart(device, paths) && s.u in paths && t.u in paths && s.u != t.u
    requires s.place in Places(device, paths[s.u]) && t.place in Places(device, paths[t.u])
    ensures !(s.place.1 <= t.place.1) && !(t.place.1 <= s.place.1)
  {
  }

  ghost predicate TakesBelow(r: Run, i: nat, path: Path)
    requires IsCacheRun(r)
  {
    Taking(r, i) && path < Taken(r, i).path
  }

  /** A purge below a spot is one of the spot's own items; any other purge is elsewhere. */
  lemma BelowOrElsewhere(r: Run, i: nat, s: Spot)
    requires IsCacheRun(r) && Taking(r, i) && IsSpot(r, s)
    ensures var p, path := Taken(r, i).path, s.place.1;
            if path < p then Taker(r, i) == s.u && Taken(r, i) in LoadTree(s.place.0, path)
            else !(path <= p) && !(p <= path)
  {
    var t := TakenFrom(r, i);
    var p, path := Taken(r, i).path, s.place.1;
    if path <= p {
      Comparable(path, t.place.1, p);
      SameSpot(r, s, t);
    } else if p <= path {
      assert t.place.1 <= path;
      SameSpot(r, s, t);
    }
  }

  // ----- The run as one cache directory sees it

  /** The purges that happened below a path: for each move the purged path, if it was one. */
  type PurgedBelow = seq<Option<Path>>

  function Purged(below: PurgedBelow, j: nat): seq<Path>
    requires j <= |below|
  {
    if j == 0 then []
    else Purged(below, j - 1) + (if below[j - 1].Some? then [below[j - 1].value] else [])
  }

  /** The tree at `path` at the start and after each of the first `j` moves that purged below it. */
  ghost function TreesAt(path: Path, disk: seq<Files>, below: PurgedBelow, j: nat): (trees: seq<Files>)
    requires |disk| == |below| + 1 && j <= |below|
    ensures |trees| == |Purged(below, j)| + 1
    decreases j
  {
    if j == 0 then [Part(disk[0], path)]
    else TreesAt(path, disk, below, j - 1) + (if below[j - 1].Some? then [Part(disk[j], path)] else [])
  }

  ghost predicate TreeStep(fs: Files, path: Path, before: Files, after: Files, p: Option<Path>) {
    if p.Some? then Purges(fs, path, p.value, Part(before, path), Part(after, path))
    else Part(after, path) == Part(before, path)
  }

  ghost predicate TreeStepAt(path: Path, disk: seq<Files>, below: PurgedBelow, i: nat)
    requires |disk| == |below| + 1 && i < |below|
  {
    TreeStep(Part(disk[0], path), path, disk[i], disk[i + 1], below[i])
  }

  ghost predicate SeenAs(path: Path, disk: seq<Files>, below: PurgedBelow, j: nat)
    requires |disk| == |below| + 1 && j <= |below|
  {
    var trees := TreesAt(path, disk, below, j);
    PurgeRun(Part(disk[0], path), path, Purged(below, j), trees) && trees[|trees| - 1] == Part(disk[j], path)
  }

  /** What happened below a path is a run of purges of the tree there. */
  lemma {:induction false} RunBelow(path: Path, disk: seq<Files>, below: PurgedBelow, j: nat)
    requires |disk| == |below| + 1 && j <= |below|
    requires forall i :: 0 <= i < j ==> TreeStepAt(path, disk, below, i)
    ensures SeenAs(path, disk, below, j)
    decreases j
  {
    if j == 0 {
      assert PurgeRun(Part(disk[0], path), path, [], [Part(disk[0], path)]);
    } else {
      RunBelow(path, disk, below, j - 1);
      assert TreeStepAt(path, disk, below, j - 1);
      if below[j - 1].Some? {
        OneMorePurge(Part(disk[0], path), path, Purged(below, j - 1), TreesAt(path, disk, below, j - 1),
                     below[j - 1].value, Part(disk[j], path));
      }
    }
  }

  ghost function BelowOf(r: Run, path: Path): (below: PurgedBelow)
    requires IsCacheRun(r)
    ensures |below| == |r.moves|
  {
    seq(|r.moves|, i requires 0 <= i < |r.moves| => if TakesBelow(r, i, path) then Some(Taken(r, i).path) else None)
  }

  /** What a purge does to the file system. */
  lemma TakenIsPurged(r: Run, i: nat)
    requires IsCacheRun(r) && Taking(r, i)
    ensures var item := Taken(r, i);
            PurgeEffect(r.disk[i], r.disk[i + 1], item.path, item.directory, item.tombstone)
  {
    assert F.DiskAt(CallOf(r), r.states, r.moves, r.disk, i);
    var item :| F.Takes(r.states[i], item) && F.ItemPurged(item, r.disk[i], r.disk[i + 1], false);
    assert item == Taken(r, i);
  }

  /** A move that purges nothing below a spot leaves the tree there as it is. */
  lemma PartKept(r: Run, s: Spot, i: nat)
    requires IsCacheRun(r) && IsSpot(r, s) && i < |r.moves| && !TakesBelow(r, i, s.place.1)
    ensures Part(r.disk[i + 1], s.place.1) == Part(r.disk[i], s.place.1)
  {
    if Taking(r, i) {
      BelowOrElsewhere(r, i, s);
      TakenIsPurged(r, i);
      var item := Taken(r, i);
      PurgeElsewhere(r.disk[i], r.disk[i + 1], s.place.1, item.path, item.directory, item.tombstone);
    } else {
      assert F.DiskAt(CallOf(r), r.states, r.moves, r.disk, i);
    }
  }

  ghost predicate UntouchedStep(path: Path, disk: seq<Files>, i: nat)
    requires i + 1 < |disk|
  {
    Untouched(path, disk[i], disk[i + 1])
  }

  lemma {:induction false} UntouchedSoFar(path: Path, disk: seq<Files>, j: nat)
    requires j < |disk| && forall i :: 0 <= i < j ==> UntouchedStep(path, disk, i)
    ensures Untouched(path, disk[0], disk[j])
    decreases j
  {
    if j > 0 {
      UntouchedSoFar(path, disk, j - 1);
      assert UntouchedStep(path, disk, j - 1);
    }
  }

  lemma NotTakenBelow(r: Run, s: Spot, i: nat)
    requires IsCacheRun(r) && IsSpot(r, s) && !IsLoaded(r, s.u, i)
    ensures !TakesBelow(r, i, s.place.1)
  {
    if TakesBelow(r, i, s.place.1) {
      TakerIsLoaded(r, i);
      BelowOrElsewhere(r, i, s);
    }
  }

  lemma UntouchedAt(r: Run, s: Spot, i: nat)
    requires IsCacheRun(r) && IsSpot(r, s) && i < |r.moves| && !IsLoaded(r, s.u, i)
    ensures Untouched(s.place.1, r.disk[i], r.disk[i + 1])
  {
    NotTakenBelow(r, s, i);
    PartKept(r, s, i);
    SameEntriesBelow(r.disk[i], r.disk[i + 1], s.place.1);
  }

  /** As long as a tracker has not loaded its items, nothing in its cache directories comes or goes. */
  lemma PartUntouched(r: Run, s: Spot, j: nat)
    requires IsCacheRun(r) && IsSpot(r, s) && j <= |r.moves|
    requires forall i :: 0 <= i < j ==> !IsLoaded(r, s.u, i)
    ensures Untouched(s.place.1, r.disk[0], r.disk[j])
  {
    forall i | 0 <= i < j ensures UntouchedStep(s.place.1, r.disk, i) {
      UntouchedAt(r, s, i);
    }
    UntouchedSoFar(s.place.1, r.disk, j);
  }

  lemma NotLoadedYet(r: Run, u: int, j: nat)
    requires IsCacheRun(r) && u in r.paths && j <= |r.moves| && !IsLoaded(r, u, j)
    ensures forall i :: 0 <= i < j ==> !IsLoaded(r, u, i)
  {
    forall i | 0 <= i < j ensures !IsLoaded(r, u, i) {
      if IsLoaded(r, u, i) {
        U.LoadedOnce(r.c, r.states, r.moves, u, i, j);
      }
    }
  }

  /** The tree that items were loaded from mirrors the file system of the start. */
  lemma SpotIsShown(r: Run, s: Spot)
    requires IsCacheRun(r) && IsSpot(r, s)
    ensures Mirrors(r.disk[0], s.place.0, s.place.1) && DistinctNames(s.place.0)
  {
    var p := SpotAtStart(r, s);
    F.PlacesShow(r.device, r.disk[0], r.paths[s.u]);
    SpotsSeparate(r, s.u);
    var i := U.LoadedBy(r.states, r.moves, s.u, |r.moves|);
    if i.Some? {
      NotLoadedYet(r, s.u, i.value);
      PartUntouched(r, s, i.value);
      PrunedBones(p.0, p.1, r.disk[0], r.disk[i.value], r.device.touched);
      MirrorsBones(r.disk[0], p.0, p.1);
      MirrorsBones(r.disk[0], s.place.0, p.1);
    }
  }

  lemma SameEntriesBelow(start: Files, now: Files, path: Path)
    requires Part(now, path) == Part(start, path)
    ensures Untouched(path, start, now)
  {
    forall q | path <= q ensures q in now <==> q in start {
      assert q in Part(now, path) <==> q in Part(start, path);
    }
  }

  /** A purge below a spot is, for the tree there, the purge of the item of that node. */
  lemma PopBelow(r: Run, s: Spot, i: nat)
    requires IsCacheRun(r) && IsSpot(r, s) && TakesBelow(r, i, s.place.1)
    ensures var path := s.place.1;
            Purges(Part(r.disk[0], path), path, Taken(r, i).path, Part(r.disk[i], path), Part(r.disk[i + 1], path))
  {
    var path, item := s.place.1, Taken(r, i);
    BelowOrElsewhere(r, i, s);
    SpotIsShown(r, s);
    MirrorsInPart(r.disk[0], path, s.place.0, path);
    S.TreeIsMarked(Part(r.disk[0], path), s.place.0, path);
    TakenIsPurged(r, i);
    PurgeInPart(r.disk[i], r.disk[i + 1], path, item.path, item.directory, item.tombstone);
  }

  lemma SpotStep(r: Run, s: Spot, i: nat)
    requires IsCacheRun(r) && IsSpot(r, s) && i < |r.moves|
    ensures TreeStep(Part(r.disk[0], s.place.1), s.place.1, r.disk[i], r.disk[i + 1],
                     if TakesBelow(r, i, s.place.1) then Some(Taken(r, i).path) else None)
  {
    if TakesBelow(r, i, s.place.1) {
      PopBelow(r, s, i);
    } else {
      PartKept(r, s, i);
    }
  }

  lemma SpotSteps(r: Run, s: Spot)
    requires IsCacheRun(r) && IsSpot(r, s)
    ensures var below := BelowOf(r, s.place.1);
            forall i :: 0 <= i < |r.moves| ==> TreeStepAt(s.place.1, r.disk, below, i)
  {
    var below := BelowOf(r, s.place.1);
    forall i | 0 <= i < |r.moves| ensures TreeStepAt(s.place.1, r.disk, below, i) {
      SpotStep(r, s, i);
    }
  }

  /** Up to any position, a run of the loop is seen from a spot as a run of purges of its tree. */
  lemma SpotSees(r: Run, s: Spot, j: nat)
    requires IsCacheRun(r) && IsSpot(r, s) && j <= |r.moves|
    ensures SeenAs(s.place.1, r.disk, BelowOf(r, s.place.1), j)
  {
    SpotSteps(r, s);
    RunBelow(s.place.1, r.disk, BelowOf(r, s.place.1), j);
  }

  // ----- The items of one cache directory among those of its tracker

  ghost function Here(items: seq<Item>, path: Path): seq<Item> {
    if items == [] then []
    else (if path < items[0].path then [items[0]] else []) + Here(items[1..], path)
  }

  lemma {:induction false} HereSplit(a: seq<Item>, b: seq<Item>, path: Path)
    ensures Here(a + b, path) == Here(a, path) + Here(b, path)
  {
    if a == [] {
      assert a + b == b;
    } else {
      HereSplit(a[1..], b, path);
      var first := if path < a[0].path then [a[0]] else [];
      assert (a + b)[0] == a[0] && (a + b)[1..] == a[1..] + b;
      assert first + (Here(a[1..], path) + Here(b, path)) == (first + Here(a[1..], path)) + Here(b, path);
    }
  }

  lemma {:induction false} HereCounts(items: seq<Item>, path: Path, x: Item)
    ensures multiset(Here(items, path))[x] == if path < x.path then multiset(items)[x] else 0
  {
    if items != [] {
      HereCounts(items[1..], path, x);
      assert items == [items[0]] + items[1..];
    }
  }

  lemma HerePermutes(a: seq<Item>, b: seq<Item>, path: Path)
    requires multiset(a) == multiset(b)
    ensures multiset(Here(a, path)) == multiset(Here(b, path))
  {
    forall x ensures multiset(Here(a, path))[x] == multiset(Here(b, path))[x] {
      HereCounts(a, path, x);
      HereCounts(b, path, x);
    }
  }

  lemma {:induction false} HereIsSorted(items: seq<Item>, path: Path)
    requires Sorted(items)
    ensures Sorted(Here(items, path))
    ensures forall x <- Here(items, path) :: x in items
  {
    if items != [] {
      assert items == [items[0]] + items[1..];
      assert Sorted(items[1..]);
      HereIsSorted(items[1..], path);
      var rest := Here(items[1..], path);
      forall y <- rest ensures !Before(y, items[0]) {
        var k :| 0 <= k < |items[1..]| && items[1..][k] == y;
        assert items[k + 1] == y;
      }
    }
  }

  lemma {:induction false} HereAll(items: seq<Item>, path: Path)
    requires forall x <- items :: path < x.path
    ensures Here(items, path) == items
  {
    if items != [] {
      HereAll(items[1..], path);
    }
  }

  lemma {:induction false} HereNone(items: seq<Item>, path: Path)
    requires forall x <- items :: !(path < x.path)
    ensures Here(items, path) == []
  {
    if items != [] {
      HereNone(items[1..], path);
    }
  }

  /** Of the items of several places, those below one of them are that place's own. */
  lemma {:induction false} HereOfPlaces(fs: Files, places: seq<Place>, k: nat)
    requires k < |places| && Separate(places)
    requires forall p <- places :: Mirrors(fs, p.0, p.1)
    ensures Here(LoadPlaces(places), places[k].1) == LoadTree(places[k].0, places[k].1)
  {
    var first, rest, path := places[0], places[1..], places[k].1;
    assert first in places && places[k] in places && forall p <- rest :: p in places;
    S.TreeIsMarked(fs, first.0, first.1);
    HereSplit(LoadTree(first.0, first.1), LoadPlaces(rest), path);
    assert Separate(rest) by {
      forall i, j | 0 <= i < j < |rest| ensures !(rest[i].1 <= rest[j].1) && !(rest[j].1 <= rest[i].1) {
        assert !(places[i + 1].1 <= places[j + 1].1) && !(places[j + 1].1 <= places[i + 1].1);
      }
    }
    if k == 0 {
      HereAll(LoadTree(first.0, first.1), path);
      NoneOfOthers(fs, rest, path);
    } else {
      forall x <- LoadTree(first.0, first.1) ensures !(path < x.path) {
        if path < x.path {
          Comparable(path, first.1, x.path);
        }
      }
      HereNone(LoadTree(first.0, first.1), path);
      HereOfPlaces(fs, rest, k - 1);
    }
  }

  lemma NoneOfOthers(fs: Files, places: seq<Place>, path: Path)
    requires forall p <- places :: Mirrors(fs, p.0, p.1) && !(p.1 <= path) && !(path <= p.1)
    ensures Here(LoadPlaces(places), path) == []
  {
    forall x <- LoadPlaces(places) ensures !(path < x.path) {
      var i := ItemFromPlace(places, x);
      assert places[i] in places;
      S.TreeIsMarked(fs, places[i].0, places[i].1);
      if path < x.path {
        Comparable(path, places[i].1, x.path);
      }
    }
    HereNone(LoadPlaces(places), path);
  }

  /** A tracker's sorted items, looked at below one cache directory, are that directory's items, sorted. */
  lemma SortedHere(r: Run, s: Spot)
    requires IsCacheRun(r) && IsSpot(r, s)
    ensures Arranges(LoadTree(s.place.0, s.place.1), Here(SortedOf(r, s.u), s.place.1))
  {
    var places, path := Places(DeviceAt(r, s.u), r.paths[s.u]), s.place.1;
    var k :| 0 <= k < |places| && places[k] == s.place;
    LoadedArranges(DeviceAt(r, s.u), r.paths[s.u]);
    SpotsSeparate(r, s.u);
    forall p <- places ensures Mirrors(r.disk[0], p.0, p.1) {
      SpotIsShown(r, Spot(s.u, p));
    }
    HereOfPlaces(r.disk[0], places, k);
    HerePermutes(LoadPlaces(places), SortedOf(r, s.u), path);
    HereIsSorted(SortedOf(r, s.u), path);
  }

  // ----- Popping in order

  lemma PoppedSplit(a: seq<Item>, b: seq<Item>)
    ensures S.Popped(a + b) == S.Popped(b) + S.Popped(a)
  {
  }

  lemma HereFirst(sorted: seq<Item>, k: nat, path: Path)
    requires 0 < k <= |sorted|
    ensures Here(sorted[k - 1..], path)
            == (if path < sorted[k - 1].path then [sorted[k - 1]] else []) + Here(sorted[k..], path)
  {
    assert sorted[k - 1..][1..] == sorted[k..];
  }

  /** A move takes the last remaining item, which may be below the path, or takes nothing below it. */
  ghost predicate OrderStep(sorted: seq<Item>, path: Path, before: nat, after: nat, p: Option<Path>) {
    || (after == before && p.None?)
    || (&& 0 < before <= |sorted| && after == before - 1
        && p == if path < sorted[before - 1].path then Some(sorted[before - 1].path) else None)
  }

  ghost predicate OrderStepAt(sorted: seq<Item>, path: Path, left: seq<nat>, below: PurgedBelow, i: nat)
    requires |left| == |below| + 1 && i < |below|
  {
    OrderStep(sorted, path, left[i], left[i + 1], below[i])
  }

  /** These paths are those of the sorted items below `path`, from the back down to the first `left` of all. */
  ghost predicate DownTo(sorted: seq<Item>, path: Path, left: nat, purged: seq<Path>) {
    left <= |sorted| && purged == S.Popped(Here(sorted[left..], path))
  }

  /** The paths purged below `path` are those of its sorted items from the back. */
  lemma {:induction false} PopsInOrder(sorted: seq<Item>, path: Path, left: seq<nat>, below: PurgedBelow, j: nat)
    requires |left| == |below| + 1 && left[0] == |sorted| && j <= |below|
    requires forall i :: 0 <= i < j ==> OrderStepAt(sorted, path, left, below, i)
    ensures DownTo(sorted, path, left[j], Purged(below, j))
    decreases j
  {
    if j == 0 {
      NoneYet(sorted, path);
    } else {
      PopsInOrder(sorted, path, left, below, j - 1);
      assert OrderStepAt(sorted, path, left, below, j - 1);
      OneMorePop(sorted, path, left[j - 1], left[j], below[j - 1], Purged(below, j - 1));
    }
  }

  lemma NoneYet(sorted: seq<Item>, path: Path)
    ensures DownTo(sorted, path, |sorted|, [])
  {
    assert sorted[|sorted|..] == [];
  }

  lemma OneMorePop(sorted: seq<Item>, path: Path, before: nat, after: nat, p: Option<Path>, purged: seq<Path>)
    requires DownTo(sorted, path, before, purged) && OrderStep(sorted, path, before, after, p)
    ensures DownTo(sorted, path, after, purged + (if p.Some? then [p.value] else []))
  {
    if after < before {
      HereFirst(sorted, before, path);
      var item, gone := sorted[before - 1], Here(sorted[before..], path);
      var first := if path < item.path then [item] else [];
      PoppedSplit(first, gone);
      assert S.Popped(first) == if path < item.path then [item.path] else [];
    }
  }

  ghost function LeftOf(r: Run, u: int): (left: seq<nat>)
    ensures |left| == |r.moves| + 1
  {
    seq(|r.moves| + 1, i requires 0 <= i => Left(r, u, i))
  }

  /** A move of the loop, as the order of the items of a spot's tracker sees it. */
  lemma MoveInOrder(r: Run, s: Spot, i: nat)
    requires IsCacheRun(r) && IsSpot(r, s) && i < |r.moves|
    ensures OrderStep(SortedOf(r, s.u), s.place.1, Left(r, s.u, i), Left(r, s.u, i + 1),
                      if TakesBelow(r, i, s.place.1) then Some(Taken(r, i).path) else None)
  {
    if Taking(r, i) && Taker(r, i) == s.u {
      TakenIsLast(r, i);
    } else {
      OthersKeep(r, i, s.u);
      if Taking(r, i) {
        BelowOrElsewhere(r, i, s);
      }
    }
  }

  lemma SpotOrderSteps(r: Run, s: Spot)
    requires IsCacheRun(r) && IsSpot(r, s)
    ensures var left, below := LeftOf(r, s.u), BelowOf(r, s.place.1);
            forall i :: 0 <= i < |r.moves| ==> OrderStepAt(SortedOf(r, s.u), s.place.1, left, below, i)
  {
    var left, below := LeftOf(r, s.u), BelowOf(r, s.place.1);
    forall i | 0 <= i < |r.moves| ensures OrderStepAt(SortedOf(r, s.u), s.place.1, left, below, i) {
      MoveInOrder(r, s, i);
    }
  }

  lemma AllLeftAtStart(r: Run, u: int)
    requires IsCacheRun(r) && u in r.paths
    ensures LeftOf(r, u)[0] == |SortedOf(r, u)|
  {
    LeftIsPrefix(r, u, 0);
  }

  /** What was purged below a spot is its sorted items from the back, as far as its tracker has come. */
  lemma SpotOrder(r: Run, s: Spot, j: nat)
    requires IsCacheRun(r) && IsSpot(r, s) && j <= |r.moves|
    ensures DownTo(SortedOf(r, s.u), s.place.1, Left(r, s.u, j), Purged(BelowOf(r, s.place.1), j))
  {
    SpotOrderSteps(r, s);
    AllLeftAtStart(r, s.u);
    PopsInOrder(SortedOf(r, s.u), s.place.1, LeftOf(r, s.u), BelowOf(r, s.place.1), j);
    assert LeftOf(r, s.u)[j] == Left(r, s.u, j);
  }

  /** The items of `s` that its tracker has purged before position `j`. */
  ghost function GoneHere(r: Run, s: Spot, j: nat): seq<Item>
    requires IsCacheRun(r) && IsSpot(r, s) && j <= |r.moves|
  {
    LeftIsPrefix(r, s.u, j);
    Here(SortedOf(r, s.u)[Left(r, s.u, j)..], s.place.1)
  }

  // ----- Every purge of a run

  /** The popping of one tree from the back that a run of the loop is a part of. */
  lemma WholePopping(r: Run, s: Spot, i: nat) returns (sorted: seq<Item>, left: nat, states: seq<Files>)
    requires IsCacheRun(r) && IsSpot(r, s) && TakesBelow(r, i, s.place.1)
    ensures S.PopRun(Part(r.disk[0], s.place.1), s.place.0, s.place.1, sorted, states)
    ensures left < |sorted| && sorted[left] == Taken(r, i)
    ensures states[|sorted| - left - 1] == Part(r.disk[i], s.place.1)
  {
    var path := s.place.1;
    sorted := Here(SortedOf(r, s.u), path);
    left := LeftHere(r, s, i);
    SpotIsPopped(r, s);
    var trees := PoppedSoFar(r, s, i, left);
    states := CarriedThrough(Part(r.disk[0], path), path, S.Popped(sorted), trees, |sorted| - left - 1);
  }

  /** The tree of a spot, and its sorted items, as they are popped. */
  lemma SpotIsPopped(r: Run, s: Spot)
    requires IsCacheRun(r) && IsSpot(r, s)
    ensures var path, fs, sorted := s.place.1, Part(r.disk[0], s.place.1), Here(SortedOf(r, s.u), s.place.1);
            && Mirrors(fs, s.place.0, path) && DistinctNames(s.place.0)
            && Arranges(LoadTree(s.place.0, path), sorted)
            && forall p <- S.Popped(sorted) :: path < p && p in fs
  {
    var path, fs, sorted := s.place.1, Part(r.disk[0], s.place.1), Here(SortedOf(r, s.u), s.place.1);
    SpotIsShown(r, s);
    MirrorsInPart(r.disk[0], path, s.place.0, path);
    SortedHere(r, s);
    SortedAreThere(fs, s.place, sorted);
    PoppedAreThere(fs, path, sorted);
  }

  /** What was purged below the spot before a purge there. */
  lemma PoppedSoFar(r: Run, s: Spot, i: nat, left: nat) returns (trees: seq<Files>)
    requires IsCacheRun(r) && IsSpot(r, s) && TakesBelow(r, i, s.place.1)
    requires var sorted := Here(SortedOf(r, s.u), s.place.1);
             left < |sorted| && S.Popped(sorted)[..|sorted| - left - 1] == S.Popped(GoneHere(r, s, i))
    ensures var path, sorted := s.place.1, Here(SortedOf(r, s.u), s.place.1);
            && PurgeRun(Part(r.disk[0], path), path, S.Popped(sorted)[..|sorted| - left - 1], trees)
            && trees[|trees| - 1] == Part(r.disk[i], path)
  {
    SpotOrder(r, s, i);
    SpotSees(r, s, i);
    trees := TreesAt(s.place.1, r.disk, BelowOf(r, s.place.1), i);
  }

  /** The nodes of a tree's sorted items are there, below the root. */
  lemma SortedAreThere(fs: Files, place: Place, sorted: seq<Item>)
    requires Mirrors(fs, place.0, place.1) && Arranges(LoadTree(place.0, place.1), sorted)
    ensures AreThere(fs, place.1, sorted)
  {
    S.TreeIsMarked(fs, place.0, place.1);
    forall item <- sorted ensures place.1 < item.path && item.path in fs {
      assert item in multiset(sorted);
      assert item in LoadTree(place.0, place.1);
    }
  }

  ghost predicate AreThere(fs: Files, path: Path, items: seq<Item>) {
    forall item <- items :: path < item.path && item.path in fs
  }

  lemma PoppedAreThere(fs: Files, path: Path, sorted: seq<Item>)
    requires AreThere(fs, path, sorted)
    ensures forall p <- S.Popped(sorted) :: path < p && p in fs
  {
    forall p <- S.Popped(sorted) ensures path < p && p in fs {
      var k :| 0 <= k < |sorted| && S.Popped(sorted)[k] == p;
      assert sorted[|sorted| - 1 - k] in sorted;
    }
  }

  /** Where a purged item is among the sorted items of its cache directory. */
  lemma LeftHere(r: Run, s: Spot, i: nat) returns (left: nat)
    requires IsCacheRun(r) && IsSpot(r, s) && TakesBelow(r, i, s.place.1)
    ensures var sorted := Here(SortedOf(r, s.u), s.place.1);
            && left < |sorted| && sorted[left] == Taken(r, i)
            && S.Popped(sorted)[..|sorted| - left - 1] == S.Popped(GoneHere(r, s, i))
  {
    BelowOrElsewhere(r, i, s);
    TakenIsLast(r, i);
    var all, k, path, item := SortedOf(r, s.u), Left(r, s.u, i), s.place.1, Taken(r, i);
    HereAround(all, k, path);
    left := |Here(all[..k - 1], path)|;
    PoppedSplit(Here(all[..k - 1], path) + [item], Here(all[k..], path));
  }

  lemma HereAround(all: seq<Item>, k: nat, path: Path)
    requires 0 < k <= |all| && path < all[k - 1].path
    ensures Here(all, path) == Here(all[..k - 1], path) + [all[k - 1]] + Here(all[k..], path)
  {
    assert all == all[..k - 1] + all[k - 1..];
    HereSplit(all[..k - 1], all[k - 1..], path);
    HereFirst(all, k, path);
  }

  lemma NoneInPart(fs: Files, path: Path)
    requires S.NoTombstones(fs, path)
    ensures S.NoTombstones(Part(fs, path), path)
  {
  }

  /** A purge among the entries below its spot. */
  lemma PurgeAsSeen(r: Run, i: nat, s: Spot)
    requires IsCacheRun(r) && IsSpot(r, s) && TakesBelow(r, i, s.place.1)
    ensures var item, fs, now := Taken(r, i), Part(r.disk[0], s.place.1), Part(r.disk[i], s.place.1);
            && item.path in now
            && (item.directory ==>
                  (PurgeWorks(now, item.path, true, item.tombstone) <==> !Kept(fs, s.place.1, item.path)))
            && (!item.directory && (!item.tombstone || IsFile(fs, item.path)) ==>
                  PurgeWorks(now, item.path, false, item.tombstone))
  {
    var sorted, left, states := WholePopping(r, s, i);
    S.PopsWork(Part(r.disk[0], s.place.1), s.place.0, s.place.1, sorted, states, left);
  }

  /** A purge below a spot without tombstones. */
  lemma CleanPurgeAsSeen(r: Run, i: nat, s: Spot)
    requires IsCacheRun(r) && IsSpot(r, s) && TakesBelow(r, i, s.place.1) && S.NoTombstones(r.disk[0], s.place.1)
    ensures var item, now := Taken(r, i), Part(r.disk[i], s.place.1);
            && !item.tombstone && PurgeWorks(now, item.path, item.directory, item.tombstone)
            && (!item.group ==> !Holds(now, item.path))
  {
    var path, item := s.place.1, Taken(r, i);
    var fs := Part(r.disk[0], path);
    var sorted, left, states := WholePopping(r, s, i);
    NoneInPart(r.disk[0], path);
    S.PopsEmptyTheTree(fs, s.place.0, path, sorted, states);
    if !item.group {
      S.EmptyAtRmdir(fs, s.place.0, path, sorted, states, left);
    }
    BelowOrElsewhere(r, i, s);
    S.TreeIsMarked(fs, s.place.0, path);
    S.NeverTombstoned(fs, path, if item.directory then item.path else ParentOf(item.path));
  }

  /**
    Every purge of every run of freeCache, with any number of trackers taking
    turns: the item's file or directory is still there when its turn comes; a
    directory is removed without an error exactly when it held no regular file
    in a tombstoned directory; a regular file is removed or emptied without an
    error; and when nothing in its cache directory is tombstoned, no purge
    fails, and a directory that is not a group is already empty.
  */
  lemma EveryPurge(r: Run, i: nat) returns (s: Spot)
    requires IsCacheRun(r) && Taking(r, i)
    ensures IsSpot(r, s) && s.u == Taker(r, i) && s.place.1 < Taken(r, i).path
    ensures Taken(r, i).path in r.disk[i]
    ensures var item, now, path := Taken(r, i), r.disk[i], s.place.1;
            && (item.directory ==>
                  (PurgeWorks(now, item.path, true, item.tombstone) <==> !Kept(r.disk[0], path, item.path)))
            && (!item.directory && IsFile(r.disk[0], item.path) ==>
                  PurgeWorks(now, item.path, false, item.tombstone))
            && (S.NoTombstones(r.disk[0], path) ==> PurgeWorks(now, item.path, item.directory, item.tombstone))
            && (S.NoTombstones(r.disk[0], path) && !item.group ==> !Holds(now, item.path))
  {
    s := TakenFrom(r, i);
    var item, path := Taken(r, i), s.place.1;
    PurgeAsSeen(r, i, s);
    SurvivesInPart(r.disk[0], path, path, false, item.path);
    if !item.directory && IsFile(r.disk[0], item.path) {
      FileStays(r, i, item.path);
    }
    if item.directory || !item.tombstone || IsFile(r.disk[i], item.path) {
      WorksInPart(r.disk[i], path, item.path, item.directory, item.tombstone);
    }
    if S.NoTombstones(r.disk[0], path) {
      CleanPurgeAsSeen(r, i, s);
      HoldsInPart(r.disk[i], path, item.path);
    }
  }

  /** Once a tracker has no items left, its cache directories without tombstones are empty. */
  lemma NothingLeftBelow(r: Run, s: Spot, j: nat)
    requires IsCacheRun(r) && IsSpot(r, s) && j <= |r.moves| && Left(r, s.u, j) == 0
    requires S.NoTombstones(r.disk[0], s.place.1)
    ensures !Holds(r.disk[j], s.place.1)
  {
    var path, fs := s.place.1, Part(r.disk[0], s.place.1);
    var sorted := Here(SortedOf(r, s.u), path);
    SpotOrder(r, s, j);
    assert SortedOf(r, s.u)[0..] == SortedOf(r, s.u);
    SpotSees(r, s, j);
    SpotIsShown(r, s);
    MirrorsInPart(r.disk[0], path, s.place.0, path);
    SortedHere(r, s);
    NoneInPart(r.disk[0], path);
    S.PopsEmptyTheTree(fs, s.place.0, path, sorted, TreesAt(path, r.disk, BelowOf(r, path), j));
    HoldsInPart(r.disk[j], path, path);
  }

  /**
    The end of a run: enough is free, or every cache directory without tombstones,
    of every tracker, is empty, or no more than the reserved size is used, or the
    active tracker is under its quota and quotas are not defied.
  */
  lemma EnoughOrEmpty(r: Run, s: Spot)
    requires IsCacheRun(r) && IsSpot(r, s) && S.NoTombstones(r.disk[0], s.place.1)
    requires Bounce.Ends(r.c, r.states[|r.moves|])
    ensures var last := r.states[|r.moves|];
            || last.needed <= 0
            || !Holds(r.disk[|r.moves|], s.place.1)
            || (r.c.reserved > 0 && Bounce.Sum(Bounce.UsedMap(last.trackers)) <= r.c.reserved)
            || (!r.c.defyQuota && last.active.Some? && last.active.value in last.trackers
                && Bounce.RatioOf(last.trackers[last.active.value]) < 10000)
  {
    var last := r.states[|r.moves|];
    if Bounce.AllPurged(last) {
      LeftIsPrefix(r, s.u, |r.moves|);
      assert s.u in last.trackers.Keys;
      NothingLeftBelow(r, s, |r.moves|);
    }
  }

  // ----- What a run leaves alone

  /** Along a run nothing is new, and what is left is the same but for files that were emptied. */
  lemma {:induction false} RunDwindled(r: Run, j: nat)
    requires IsCacheRun(r) && j <= |r.moves|
    ensures Dwindled(r.disk[0], r.disk[j])
    decreases j
  {
    if j > 0 {
      RunDwindled(r, j - 1);
      if Taking(r, j - 1) {
        TakenIsPurged(r, j - 1);
        var item := Taken(r, j - 1);
        PurgeDwindles(r.disk[j - 1], r.disk[j], item.path, item.directory, item.tombstone);
      } else {
        assert F.DiskAt(CallOf(r), r.states, r.moves, r.disk, j - 1);
      }
    }
  }

  lemma FileStays(r: Run, i: nat, p: Path)
    requires IsCacheRun(r) && i <= |r.moves| && p in r.disk[i] && IsFile(r.disk[0], p)
    ensures IsFile(r.disk[i], p)
  {
    RunDwindled(r, i);
    assert Spent(r.disk[i][p]) == Spent(r.disk[0][p]);
  }

  /** A path that lies in no cache directory. */
  ghost predicate Outside(device: Device, paths: F.DataPaths, q: Path) {
    forall u <- paths.Keys, place <- Places(device, paths[u]) :: !(place.1 < q)
  }

  /** The purge at position `i` empties the inode that `q` is a name of. */
  ghost predicate EmptiesAt(r: Run, i: nat, q: Path)
    requires IsCacheRun(r)
  {
    && Taking(r, i) && IsFile(r.disk[i], q)
    && var item := Taken(r, i);
       r.disk[i][q].ino in Truncated(r.disk[i], item.path, item.directory, item.tombstone)
  }

  ghost predicate EmptiedBefore(r: Run, j: nat, q: Path)
    requires IsCacheRun(r) && j <= |r.moves|
  {
    exists i :: 0 <= i < j && EmptiesAt(r, i, q)
  }

  /** What one purge does to a path that is not below its item. */
  lemma PurgeLeaves(fs: Files, after: Files, p: Path, directory: bool, tombstone: bool, q: Path)
    requires PurgeEffect(fs, after, p, directory, tombstone) && !(p <= q)
    ensures q in after <==> q in fs
    ensures q in fs ==> after[q] == Drained(fs[q], Truncated(fs, p, directory, tombstone))
  {
    assert !Removed(fs, p, directory, tombstone, q);
  }

  /** No purge before position `j` takes an item at or above `q`. */
  ghost predicate Spectates(r: Run, j: nat, q: Path)
    requires IsCacheRun(r) && j <= |r.moves|
  {
    forall i | 0 <= i < j && Taking(r, i) :: !(Taken(r, i).path <= q)
  }

  lemma MoveLeaves(r: Run, i: nat, q: Path)
    requires IsCacheRun(r) && i < |r.moves| && (Taking(r, i) ==> !(Taken(r, i).path <= q))
    ensures q in r.disk[i + 1] <==> q in r.disk[i]
    ensures q in r.disk[i] ==> r.disk[i + 1][q] == if EmptiesAt(r, i, q) then Spent(r.disk[i][q]) else r.disk[i][q]
  {
    if Taking(r, i) {
      var item := Taken(r, i);
      TakenIsPurged(r, i);
      PurgeLeaves(r.disk[i], r.disk[i + 1], item.path, item.directory, item.tombstone, q);
    } else {
      assert F.DiskAt(CallOf(r), r.states, r.moves, r.disk, i);
    }
  }

  /** A path that no purge takes only loses its contents, when a purge empties an inode that it is a name of. */
  lemma {:induction false} SpectatorChanges(r: Run, j: nat, q: Path)
    requires IsCacheRun(r) && j <= |r.moves| && Spectates(r, j, q)
    ensures q in r.disk[j] <==> q in r.disk[0]
    ensures q in r.disk[0] ==>
              r.disk[j][q] == if EmptiedBefore(r, j, q) then Spent(r.disk[0][q]) else r.disk[0][q]
    decreases j
  {
    if j > 0 {
      SpectatorChanges(r, j - 1, q);
      MoveLeaves(r, j - 1, q);
      assert EmptiedBefore(r, j, q) <==> EmptiedBefore(r, j - 1, q) || EmptiesAt(r, j - 1, q);
    }
  }

  lemma OutsideSpectates(r: Run, j: nat, q: Path)
    requires IsCacheRun(r) && j <= |r.moves| && Outside(r.device, r.paths, q)
    ensures Spectates(r, j, q)
  {
    forall i | 0 <= i < j && Taking(r, i) ensures !(Taken(r, i).path <= q) {
      var s := TakenFrom(r, i);
      var p := SpotAtStart(r, s);
      assert !(p.1 < q) && p.1 < Taken(r, i).path;
    }
  }

  /**
    All that a run of the loop changes outside the cache directories of its
    trackers: it empties the files that are names of an inode that one of its
    purges empties at that moment, through a link or through another name.
  */
  lemma OnlyCachesChange(r: Run, j: nat, q: Path)
    requires IsCacheRun(r) && j <= |r.moves| && Outside(r.device, r.paths, q)
    ensures q in r.disk[j] <==> q in r.disk[0]
    ensures q in r.disk[0] ==>
              r.disk[j][q] == if EmptiedBefore(r, j, q) then Spent(r.disk[0][q]) else r.disk[0][q]
  {
    OutsideSpectates(r, j, q);
    SpectatorChanges(r, j, q);
  }
}
