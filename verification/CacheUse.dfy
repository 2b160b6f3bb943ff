/**
  Items, sizes and order over a whole run of the bounce loop. A tracker's items
  are loaded when it first becomes active, from the trees as they are then,
  while its use was measured when the call began.
*/
module CacheUse {
  import opened Wrappers
  import opened Fts
  import opened CacheItems
  import opened CacheCoverage
  import opened PurgeOrder
  import opened SeenTrees
  import opened CacheTrackers
  import opened FreeCache
  import Bounce
  import P = Purge

  // ----- When and from what the items were loaded

  ghost predicate LoadingAt(states: seq<Bounce.State>, moves: seq<Bounce.Move>, u: int, i: nat)
    requires i < |moves| <= |states|
  {
    moves[i].Swap? && moves[i].uid == u && u in states[i].trackers && !states[i].trackers[u].loaded
  }

  /** The move before position `j` that loaded the items of tracker `u`. */
  ghost function LoadedBy(states: seq<Bounce.State>, moves: seq<Bounce.Move>, u: int, j: nat): (i: Option<nat>)
    requires j <= |moves| <= |states|
    ensures i.Some? ==> i.value < j && LoadingAt(states, moves, u, i.value)
  {
    if j == 0 then None
    else if LoadingAt(states, moves, u, j - 1) then Some(j - 1)
    else LoadedBy(states, moves, u, j - 1)
  }

  /** The items that were loaded, or that loading would have found at the start. */
  ghost function ItemsAs(states: seq<Bounce.State>, moves: seq<Bounce.Move>, u: int, j: nat): seq<Item>
    requires j <= |moves| <= |states| && states != [] && u in states[0].trackers
  {
    var i := LoadedBy(states, moves, u, j);
    if i.Some? then moves[i.value].items else states[0].trackers[u].items
  }

  /** The device as it was when the items were loaded. */
  ghost function DeviceOf(x: Call, states: seq<Bounce.State>, moves: seq<Bounce.Move>, disk: seq<P.Files>,
                          u: int, j: nat): Device
    requires j <= |moves| <= |states| && |moves| <= |disk|
  {
    var i := LoadedBy(states, moves, u, j);
    if i.Some? then Seen(x.device, x.start, disk[i.value]) else x.device
  }

  /** The run of a call: its moves, and the file system between them. */
  ghost predicate IsCall(x: Call, quotas: map<int, int>, c: Bounce.Config, states: seq<Bounce.State>,
                         moves: seq<Bounce.Move>, disk: seq<P.Files>) {
    && Bounce.IsRun(c, states, moves) && IsDiskRun(x, states, moves, disk)
    && states[0].trackers == StartValues(x.device, x.paths, quotas)
  }

  lemma ItemsOfDevice(x: Call, quotas: map<int, int>, c: Bounce.Config, states: seq<Bounce.State>,
                      moves: seq<Bounce.Move>, disk: seq<P.Files>, u: int, j: nat)
    requires IsCall(x, quotas, c, states, moves, disk) && j <= |moves| && u in x.paths
    ensures ItemsAs(states, moves, u, j) == LoadedItems(DeviceOf(x, states, moves, disk, u, j), x.paths[u])
  {
    var i := LoadedBy(states, moves, u, j);
    if i.Some? {
      assert DiskAt(x, states, moves, disk, i.value);
    }
  }

  // ----- What is left of them

  /** A tracker with the given use and items at the start. */
  ghost predicate ShrunkFrom(used: int, items: seq<Item>, t: Bounce.Tracker) {
    t.items <= items && t.used - TotalSize(t.items) == used - TotalSize(items)
  }

  lemma MoveShrinks(c: Bounce.Config, s: Bounce.State, m: Bounce.Move, s': Bounce.State, u: int,
                    used: int, items: seq<Item>)
    requires Bounce.Next(c, s, m, s') && u in s.trackers && ShrunkFrom(used, items, s.trackers[u])
    requires !(m.Swap? && m.uid == u && !s.trackers[u].loaded)
    ensures u in s'.trackers && ShrunkFrom(used, items, s'.trackers[u])
    ensures s'.trackers[u].loaded == s.trackers[u].loaded
    ensures !s.trackers[u].loaded && !(m.Take? && s.active == Some(u)) ==> s'.trackers[u] == s.trackers[u]
  {
    var before := s.trackers[u].items;
    if m.Take? && s.active == Some(u) {
      var last := |before| - 1;
      assert before == before[..last] + [before[last]];
      TotalSizeSplit(before[..last], [before[last]]);
    }
  }

  lemma MoveLoads(c: Bounce.Config, s: Bounce.State, m: Bounce.Move, s': Bounce.State, u: int)
    requires Bounce.Next(c, s, m, s') && u in s.trackers && m.Swap? && m.uid == u
    ensures u in s'.trackers && s'.trackers[u].loaded && s'.trackers[u].items == m.items
    ensures s'.trackers[u].used == s.trackers[u].used
  {
  }

  /** Only an active tracker, whose items are loaded, is purged. */
  lemma UnloadedIsIdle(c: Bounce.Config, states: seq<Bounce.State>, moves: seq<Bounce.Move>, i: nat, u: int)
    requires Bounce.IsRun(c, states, moves) && i < |moves| && u in states[i].trackers && !states[i].trackers[u].loaded
    ensures states[i].active != Some(u)
  {
    Bounce.RunKeepsInv(c, states, moves, i);
  }

  /** What is known of a tracker at position `j`. */
  ghost predicate TrackedAt(states: seq<Bounce.State>, moves: seq<Bounce.Move>, u: int, j: nat)
    requires j <= |moves| < |states| && u in states[0].trackers
  {
    && u in states[j].trackers
    && ShrunkFrom(states[0].trackers[u].used, ItemsAs(states, moves, u, j), states[j].trackers[u])
    && (!states[0].trackers[u].loaded ==> (states[j].trackers[u].loaded <==> LoadedBy(states, moves, u, j).Some?))
    && (!states[j].trackers[u].loaded ==> states[j].trackers[u] == states[0].trackers[u])
  }

  /** A tracker's remaining items are always the first ones of the sorted list it loaded, and it used just the rest. */
  lemma {:induction false} ItemsShrinkFromBack(c: Bounce.Config, states: seq<Bounce.State>, moves: seq<Bounce.Move>,
                                               j: nat, u: int)
    requires Bounce.IsRun(c, states, moves) && j <= |moves| && u in states[0].trackers
    ensures TrackedAt(states, moves, u, j)
    decreases j
  {
    if j > 0 {
      var k := j - 1;
      ItemsShrinkFromBack(c, states, moves, k, u);
      assert Bounce.StepAt(c, states, moves, k);
      if LoadingAt(states, moves, u, k) {
        MoveLoads(c, states[k], moves[k], states[j], u);
      } else {
        MoveShrinks(c, states[k], moves[k], states[j], u, states[0].trackers[u].used, ItemsAs(states, moves, u, k));
        if !states[k].trackers[u].loaded {
          UnloadedIsIdle(c, states, moves, k, u);
        }
      }
    }
  }

  /** Items are loaded once. */
  lemma {:induction false} LoadedOnce(c: Bounce.Config, states: seq<Bounce.State>, moves: seq<Bounce.Move>,
                                      u: int, i: nat, j: nat)
    requires Bounce.IsRun(c, states, moves) && i <= j <= |moves| && u in states[0].trackers
    requires u in states[i].trackers && states[i].trackers[u].loaded
    ensures LoadedBy(states, moves, u, j) == LoadedBy(states, moves, u, i)
    ensures u in states[j].trackers && states[j].trackers[u].loaded
    decreases j
  {
    if i < j {
      LoadedOnce(c, states, moves, u, i, j - 1);
      assert Bounce.StepAt(c, states, moves, j - 1);
    }
  }

  lemma LoadedAt(c: Bounce.Config, states: seq<Bounce.State>, moves: seq<Bounce.Move>, u: int, i: nat)
    requires Bounce.IsRun(c, states, moves) && i < |moves| && u in states[0].trackers && LoadingAt(states, moves, u, i)
    requires u in states[i + 1].trackers && states[i + 1].trackers[u].loaded
    ensures LoadedBy(states, moves, u, |moves|) == Some(i)
  {
    LoadedOnce(c, states, moves, u, i + 1, |moves|);
  }

  lemma LeftIsClosed(places: seq<Place>, sorted: seq<Item>, left: seq<Item>)
    requires Separate(places) && Arranges(LoadPlaces(places), sorted) && left <= sorted
    ensures forall a <- LoadPlaces(places), b <- left | a.path < b.path :: a in left
  {
    RemainingIsAncestorClosed(places, sorted, |left|);
    forall a <- LoadPlaces(places), b <- left | a.path < b.path ensures a in left {
      assert a in multiset(sorted);
    }
  }

  lemma SeparateParts(a: seq<Place>, b: seq<Place>)
    requires Separate(a + b)
    ensures Separate(a) && Separate(b)
    ensures forall x <- a, y <- b :: !(x.1 <= y.1) && !(y.1 <= x.1)
  {
    var all := a + b;
    assert forall p <- a :: p in all;
    assert forall p <- b :: p in all;
    forall i, j | 0 <= i < j < |a| ensures !(a[i].1 <= a[j].1) && !(a[j].1 <= a[i].1) {
      assert a[i] == all[i] && a[j] == all[j];
    }
    forall i, j | 0 <= i < j < |b| ensures !(b[i].1 <= b[j].1) && !(b[j].1 <= b[i].1) {
      assert b[i] == all[|a| + i] && b[j] == all[|a| + j];
    }
    forall x <- a, y <- b ensures !(x.1 <= y.1) && !(y.1 <= x.1) {
      var i :| 0 <= i < |a| && a[i] == x;
      var j :| 0 <= j < |b| && b[j] == y;
      assert all[i] == x && all[|a| + j] == y;
    }
  }

  lemma SeparateTogether(a: seq<Place>, b: seq<Place>)
    requires Separate(a) && Separate(b)
    requires forall x <- a, y <- b :: !(x.1 <= y.1) && !(y.1 <= x.1)
    ensures Separate(a + b)
  {
    var all := a + b;
    forall i, j | 0 <= i < j < |all| ensures !(all[i].1 <= all[j].1) && !(all[j].1 <= all[i].1) {
      if i < |a| <= j {
        assert all[i] in a && all[j] in b;
      }
    }
  }

  /** Every place found later is a place of the start, pruned. */
  ghost predicate IsSeen(device: Device, start: P.Files, now: P.Files, places: seq<Place>, seen: Place) {
    && seen.1 in now
    && exists p <- places :: p.1 == seen.1 && seen.0 == Pruned(p.0, p.1, start, now, device.touched)
  }

  lemma {:induction false} SeenPlaces(device: Device, start: P.Files, now: P.Files, dataPaths: seq<Path>)
    ensures forall seen <- Places(Seen(device, start, now), dataPaths) ::
              IsSeen(device, start, now, Places(device, dataPaths), seen)
  {
    if dataPaths != [] {
      var last := |dataPaths| - 1;
      var all, some := Places(device, dataPaths), Places(device, dataPaths[..last]);
      SeenPlaces(device, start, now, dataPaths[..last]);
      SeenPlacesAt(device, start, now, dataPaths[last]);
      forall seen <- Places(Seen(device, start, now), dataPaths) ensures IsSeen(device, start, now, all, seen) {
        var from := if seen in Places(Seen(device, start, now), dataPaths[..last]) then some
                    else PlacesAt(device, dataPaths[last]);
        assert IsSeen(device, start, now, from, seen);
        var p :| p in from && p.1 == seen.1 && seen.0 == Pruned(p.0, p.1, start, now, device.touched);
        assert p in all;
      }
    }
  }

  lemma SeenPlacesAt(device: Device, start: P.Files, now: P.Files, dataPath: Path)
    ensures forall seen <- PlacesAt(Seen(device, start, now), dataPath) ::
              IsSeen(device, start, now, PlacesAt(device, dataPath), seen)
  {
    var d := Seen(device, start, now);
    var cache, codeCache := device.cache(dataPath), device.codeCache(dataPath);
    forall seen <- PlacesAt(d, dataPath) ensures IsSeen(device, start, now, PlacesAt(device, dataPath), seen) {
      var path := if seen in PlaceOf(d, cache) then cache else codeCache;
      assert seen in PlaceOf(d, path);
      assert (device.tree(path).value, path) in PlaceOf(device, path);
      assert (device.tree(path).value, path) in PlacesAt(device, dataPath);
    }
  }

  lemma SeenPlaceSeparate(device: Device, start: P.Files, now: P.Files, path: Path)
    requires Separate(PlaceOf(device, path))
    ensures Separate(PlaceOf(Seen(device, start, now), path))
  {
    if device.tree(path).Some? {
      assert (device.tree(path).value, path) in PlaceOf(device, path);
      DistinctPruned(device.tree(path).value, path, start, now, device.touched);
    }
  }

  /** Cache directories that lie apart at the start lie apart later. */
  lemma {:induction false} SeenSeparate(device: Device, start: P.Files, now: P.Files, dataPaths: seq<Path>)
    requires Separate(Places(device, dataPaths))
    ensures Separate(Places(Seen(device, start, now), dataPaths))
  {
    if dataPaths != [] {
      var d, some, last := Seen(device, start, now), dataPaths[..|dataPaths| - 1], dataPaths[|dataPaths| - 1];
      SeparateParts(Places(device, some), PlacesAt(device, last));
      SeenSeparate(device, start, now, some);
      SeenSeparateAt(device, start, now, last);
      SeenPlaces(device, start, now, some);
      SeenPlacesAt(device, start, now, last);
      forall x <- Places(d, some), y <- PlacesAt(d, last) ensures !(x.1 <= y.1) && !(y.1 <= x.1) {
        assert IsSeen(device, start, now, Places(device, some), x);
        assert IsSeen(device, start, now, PlacesAt(device, last), y);
      }
      SeparateTogether(Places(d, some), PlacesAt(d, last));
    }
  }

  lemma SeenSeparateAt(device: Device, start: P.Files, now: P.Files, dataPath: Path)
    requires Separate(PlacesAt(device, dataPath))
    ensures Separate(PlacesAt(Seen(device, start, now), dataPath))
  {
    var d, cache, codeCache := Seen(device, start, now), device.cache(dataPath), device.codeCache(dataPath);
    SeparateParts(PlaceOf(device, cache), PlaceOf(device, codeCache));
    SeenPlaceSeparate(device, start, now, cache);
    SeenPlaceSeparate(device, start, now, codeCache);
    SeenPlacesAt(device, start, now, dataPath);
    SeparateTogether(PlaceOf(d, cache), PlaceOf(d, codeCache));
  }

  /**
    At every point of every run the items a tracker still has are closed under
    ancestors: no directory was purged before something in it.
  */
  lemma RunIsAncestorClosed(x: Call, quotas: map<int, int>, c: Bounce.Config, states: seq<Bounce.State>,
                            moves: seq<Bounce.Move>, disk: seq<P.Files>, j: nat, u: int)
    requires IsCall(x, quotas, c, states, moves, disk) && j <= |moves| && u in x.paths
    requires Separate(Places(x.device, x.paths[u]))
    ensures u in states[j].trackers
    ensures var left, places := states[j].trackers[u].items, Places(DeviceOf(x, states, moves, disk, u, j), x.paths[u]);
            forall a <- LoadPlaces(places), b <- left | a.path < b.path :: a in left
  {
    ItemsShrinkFromBack(c, states, moves, j, u);
    ItemsOfDevice(x, quotas, c, states, moves, disk, u, j);
    var d := DeviceOf(x, states, moves, disk, u, j);
    LoadedArranges(d, x.paths[u]);
    var i := LoadedBy(states, moves, u, j);
    if i.Some? {
      SeenSeparate(x.device, x.start, disk[i.value], x.paths[u]);
    }
    LeftIsClosed(Places(d, x.paths[u]), LoadedItems(d, x.paths[u]), states[j].trackers[u].items);
  }

  // ----- Sizes

  function RootSizes(places: seq<Place>): nat {
    if places == [] then 0 else SizeOf(places[0].0) + RootSizes(places[1..])
  }

  lemma {:induction false} PlacesAddUp(places: seq<Place>)
    ensures TotalSize(LoadPlaces(places)) + RootSizes(places) == UsedByPlaces(places)
  {
    if places != [] {
      SizesAddUp(places[0].0, places[0].1);
      TotalSizeSplit(LoadTree(places[0].0, places[0].1), LoadPlaces(places[1..]));
      PlacesAddUp(places[1..]);
    }
  }

  function UsedByPlaces(places: seq<Place>): nat {
    if places == [] then 0 else UsedBy(places[0].0) + UsedByPlaces(places[1..])
  }

  lemma {:induction false} UsedByPlacesSplit(a: seq<Place>, b: seq<Place>)
    ensures UsedByPlaces(a + b) == UsedByPlaces(a) + UsedByPlaces(b)
  {
    if a == [] {
      assert a + b == b;
    } else {
      UsedByPlacesSplit(a[1..], b);
      assert (a + b)[1..] == a[1..] + b;
    }
  }

  lemma {:induction false} TreeStatsOfPlaces(device: Device, dataPaths: seq<Path>)
    ensures TreeStats(device, dataPaths) == UsedByPlaces(Places(device, dataPaths))
  {
    if dataPaths != [] {
      var last := |dataPaths| - 1;
      var cache := PlaceOf(device, device.cache(dataPaths[last]));
      var codeCache := PlaceOf(device, device.codeCache(dataPaths[last]));
      TreeStatsOfPlaces(device, dataPaths[..last]);
      UsedByPlacesSplit(Places(device, dataPaths[..last]), cache + codeCache);
      UsedByPlacesSplit(cache, codeCache);
    }
  }

  lemma {:induction false} TotalSizePermutes(a: seq<Item>, b: seq<Item>)
    requires multiset(a) == multiset(b)
    ensures TotalSize(a) == TotalSize(b)
  {
    if a == [] {
      assert |multiset(b)| == 0;
    } else {
      assert a[0] in multiset(b);
      var i :| 0 <= i < |b| && b[i] == a[0];
      var rest := b[..i] + b[i + 1..];
      assert a == [a[0]] + a[1..];
      assert b == b[..i] + ([b[i]] + b[i + 1..]);
      assert multiset(a[1..]) == multiset(a) - multiset{a[0]};
      assert multiset(rest) == multiset(b) - multiset{b[i]};
      TotalSizePermutes(a[1..], rest);
      TotalSizeSplit(b[..i], b[i + 1..]);
      TotalSizeSplit(b[..i], [b[i]] + b[i + 1..]);
    }
  }

  /** Space that was charged for at the start is gone when the items are loaded. */
  ghost predicate LostFrom(place: Place, start: P.Files, now: P.Files) {
    if place.1 in now then Lost(place.0, place.1, start, now) else UsedBy(place.0) > 0
  }

  ghost predicate LostIn(places: seq<Place>, start: P.Files, now: P.Files) {
    exists place <- places :: LostFrom(place, start, now)
  }

  lemma LostInEither(a: seq<Place>, b: seq<Place>, start: P.Files, now: P.Files)
    ensures LostIn(a + b, start, now) <==> LostIn(a, start, now) || LostIn(b, start, now)
  {
    assert forall p :: p in a + b <==> p in a || p in b;
  }

  lemma UseAt(device: Device, path: Path, start: P.Files, now: P.Files)
    ensures UsedAt(Seen(device, start, now), path) <= UsedAt(device, path)
    ensures UsedAt(Seen(device, start, now), path) == UsedAt(device, path)
            <==> !LostIn(PlaceOf(device, path), start, now)
  {
    if device.tree(path).Some? {
      var place := (device.tree(path).value, path);
      assert PlaceOf(device, path) == [place];
      assert place in PlaceOf(device, path);
      if path in now {
        LessUse(place.0, path, start, now, device.touched);
      }
    }
  }

  lemma {:induction false} UseIn(device: Device, dataPaths: seq<Path>, start: P.Files, now: P.Files)
    ensures TreeStats(Seen(device, start, now), dataPaths) <= TreeStats(device, dataPaths)
    ensures TreeStats(Seen(device, start, now), dataPaths) == TreeStats(device, dataPaths)
            <==> !LostIn(Places(device, dataPaths), start, now)
  {
    if dataPaths != [] {
      var last := |dataPaths| - 1;
      var cache, codeCache := device.cache(dataPaths[last]), device.codeCache(dataPaths[last]);
      UseIn(device, dataPaths[..last], start, now);
      UseAt(device, cache, start, now);
      UseAt(device, codeCache, start, now);
      LostInEither(PlaceOf(device, cache), PlaceOf(device, codeCache), start, now);
      LostInEither(Places(device, dataPaths[..last]), PlacesAt(device, dataPaths[last]), start, now);
    }
  }

  lemma LoadedSizes(device: Device, dataPaths: seq<Path>)
    ensures TotalSize(LoadedItems(device, dataPaths)) + RootSizes(Places(device, dataPaths))
            == TreeStats(device, dataPaths)
  {
    var places := Places(device, dataPaths);
    LoadedArranges(device, dataPaths);
    TotalSizePermutes(LoadPlaces(places), LoadedItems(device, dataPaths));
    PlacesAddUp(places);
    TreeStatsOfPlaces(device, dataPaths);
  }

  /**
    When the quota service has no answer for a tracker, its use is measured by
    walking its trees when the call begins. Once it has loaded its items, its use
    is never less than the size of the items still there plus the blocks of the
    cache directories themselves, and it is exactly that when no space that it
    was charged for was lost before it loaded them.
  */
  lemma UseIsItemsAndRoots(x: Call, quotas: map<int, int>, c: Bounce.Config, states: seq<Bounce.State>,
                           moves: seq<Bounce.Move>, disk: seq<P.Files>, j: nat, u: int)
    requires IsCall(x, quotas, c, states, moves, disk) && j <= |moves| && u in x.paths && !QuotaAnswers(x.device, u)
    ensures u in states[j].trackers
    ensures var t, i := states[j].trackers[u], LoadedBy(states, moves, u, j);
            && (t.loaded <==> i.Some?)
            && (i.None? ==> t.used == TreeStats(x.device, x.paths[u]))
            && (i.Some? ==>
                  var seen := Seen(x.device, x.start, disk[i.value]);
                  var size := TotalSize(t.items) + RootSizes(Places(seen, x.paths[u]));
                  && t.used >= size
                  && (t.used == size <==> !LostIn(Places(x.device, x.paths[u]), x.start, disk[i.value])))
  {
    ItemsShrinkFromBack(c, states, moves, j, u);
    ItemsOfDevice(x, quotas, c, states, moves, disk, u, j);
    LoadedSizes(DeviceOf(x, states, moves, disk, u, j), x.paths[u]);
    var i := LoadedBy(states, moves, u, j);
    if i.Some? {
      UseIn(x.device, x.paths[u], x.start, disk[i.value]);
    }
  }

  lemma {:induction false} TotalIsNatural(items: seq<Item>)
    requires forall item <- items :: item.size >= 0
    ensures TotalSize(items) >= 0
  {
    if items != [] {
      TotalIsNatural(items[1..]);
    }
  }

  lemma LoadedAreNatural(device: Device, paths: seq<Path>)
    ensures forall item <- LoadedItems(device, paths) :: item.size >= 0
  {
    LoadedArranges(device, paths);
    var places := Places(device, paths);
    forall item <- LoadedItems(device, paths) ensures item.size >= 0 {
      assert item in multiset(LoadedItems(device, paths));
      var i := ItemFromPlace(places, item);
      TreeIsNatural(places[i].0, places[i].1);
    }
  }

  /**
    The quota theorem for a tracker that was measured by walking its trees, with
    no further condition: whenever it is purged it has used up its quota, so it
    never ends below its quota by more than the size of its last purged item.
  */
  lemma WalkedQuotaSafety(x: Call, quotas: map<int, int>, c: Bounce.Config, states: seq<Bounce.State>,
                          moves: seq<Bounce.Move>, disk: seq<P.Files>, j: nat, u: int)
    requires IsCall(x, quotas, c, states, moves, disk) && j <= |moves| && u in x.paths && !QuotaAnswers(x.device, u)
    requires !c.defyQuota
    ensures u in states[j].trackers
    ensures var i := Bounce.LastTake(states, moves, Some(u), j);
            i.Some? ==>
              && u in states[i.value].trackers
              && states[i.value].trackers[u].used >= QuotaFor(quotas, u)
              && states[j].trackers[u].used >= QuotaFor(quotas, u) - Bounce.TakenSize(c, states, moves, i.value)
  {
    Bounce.QuotaSafety(c, states, moves, u, j);
    Bounce.UsedSince(c, states, moves, u, j);
    var i := Bounce.LastTake(states, moves, Some(u), j);
    if i.Some? {
      UseIsNatural(x, quotas, c, states, moves, disk, i.value, u);
      Bounce.UsedSince(c, states, moves, u, i.value);
    }
  }

  lemma UseIsNatural(x: Call, quotas: map<int, int>, c: Bounce.Config, states: seq<Bounce.State>,
                     moves: seq<Bounce.Move>, disk: seq<P.Files>, j: nat, u: int)
    requires IsCall(x, quotas, c, states, moves, disk) && j <= |moves| && u in x.paths && !QuotaAnswers(x.device, u)
    ensures u in states[j].trackers && states[j].trackers[u].used >= 0
  {
    UseIsItemsAndRoots(x, quotas, c, states, moves, disk, j, u);
    ItemsShrinkFromBack(c, states, moves, j, u);
    ItemsOfDevice(x, quotas, c, states, moves, disk, u, j);
    var d := DeviceOf(x, states, moves, disk, u, j);
    LoadedAreNatural(d, x.paths[u]);
    PrefixIsNatural(states[j].trackers[u].items, LoadedItems(d, x.paths[u]));
  }

  lemma PrefixIsNatural(left: seq<Item>, items: seq<Item>)
    requires left <= items && forall item <- items :: item.size >= 0
    ensures TotalSize(left) >= 0
  {
    TotalIsNatural(left);
  }
}
