/**
  Whether a tracker is charged for what is there. Its use is measured when the
  call begins, but a purge of another tracker can empty a file in its cache
  directories, through a link or through another name, before its items are
  loaded. This is exactly when it is charged for too much.
*/
module ChargedUse {
  import opened Wrappers
  import opened Fts
  import opened CacheItems
  import opened CacheCoverage
  import opened PurgeOrder
  import opened Purge
  import opened PurgeLocality
  import opened SeenTrees
  import opened CacheTrackers
  import opened CacheRuns
  import opened SameDevices
  import opened OutsideFiles
  import F = FreeCache
  import U = CacheUse

  // ----- Which files a tree was charged for

  /** The node at `q` in the tree at `path` holds blocks. */
  ghost predicate HoldsBlocks(n: Node, path: Path, q: Path)
    decreases n
  {
    || (q == path && n.stat.blocks > 0)
    || (n.Dir? && exists c <- n.children :: HoldsBlocks(c, path + [c.name], q))
  }

  lemma {:induction false} BlocksAreThere(fs: Files, n: Node, path: Path, q: Path)
    requires Mirrors(fs, n, path) && HoldsBlocks(n, path, q)
    ensures path <= q && q in fs
    decreases n
  {
    if !(q == path && n.stat.blocks > 0) {
      var c :| c in n.children && HoldsBlocks(c, path + [c.name], q);
      BlocksAreThere(fs, c, path + [c.name], q);
    }
  }

  lemma {:induction false} TimelessBlocks(n: Node, path: Path, q: Path)
    ensures HoldsBlocks(Timeless(n), path, q) <==> HoldsBlocks(n, path, q)
    decreases n
  {
    if n.Dir? {
      var all := TimelessAll(n.children);
      forall i | 0 <= i < |n.children|
        ensures HoldsBlocks(all[i], path + [all[i].name], q)
                <==> HoldsBlocks(n.children[i], path + [n.children[i].name], q)
      {
        TimelessBlocks(n.children[i], path + [n.children[i].name], q);
      }
    }
  }

  /** While nothing comes or goes, space is lost exactly when a file that holds blocks is emptied. */
  lemma {:induction false} LostIsEmptied(n: Node, path: Path, start: Files, now: Files)
    requires Mirrors(start, n, path) && Untouched(path, start, now)
    ensures Lost(n, path, start, now) <==> exists q :: HoldsBlocks(n, path, q) && IsEmptied(start, now, q)
    decreases n
  {
    if n.Dir? {
      forall c <- n.children
        ensures path + [c.name] in now
        ensures Lost(c, path + [c.name], start, now)
                <==> exists q :: HoldsBlocks(c, path + [c.name], q) && IsEmptied(start, now, q)
      {
        UntouchedBelow(path, path + [c.name], start, now);
        LostIsEmptied(c, path + [c.name], start, now);
      }
      if exists q :: HoldsBlocks(n, path, q) && IsEmptied(start, now, q) {
        var q :| HoldsBlocks(n, path, q) && IsEmptied(start, now, q);
        var c :| c in n.children && HoldsBlocks(c, path + [c.name], q);
      }
      if Lost(n, path, start, now) {
        var c :| c in n.children && Lost(c, path + [c.name], start, now);
        var q :| HoldsBlocks(c, path + [c.name], q) && IsEmptied(start, now, q);
        assert HoldsBlocks(n, path, q);
      }
    }
  }

  /** The tracker is charged for the blocks of `q`. */
  ghost predicate ChargedFor(places: seq<Place>, q: Path) {
    exists place <- places :: HoldsBlocks(place.0, place.1, q)
  }

  lemma SameCharge(a: seq<Place>, b: seq<Place>, q: Path)
    requires SamePlaces(a, b)
    ensures ChargedFor(a, q) <==> ChargedFor(b, q)
  {
    forall i | 0 <= i < |a|
      ensures HoldsBlocks(a[i].0, a[i].1, q) <==> HoldsBlocks(b[i].0, b[i].1, q)
    {
      assert SamePlace(a[i], b[i]);
      TimelessBlocks(a[i].0, a[i].1, q);
      TimelessBlocks(b[i].0, b[i].1, q);
    }
    if ChargedFor(a, q) {
      var i :| 0 <= i < |a| && HoldsBlocks(a[i].0, a[i].1, q);
      assert b[i] in b;
    }
    if ChargedFor(b, q) {
      var i :| 0 <= i < |b| && HoldsBlocks(b[i].0, b[i].1, q);
      assert a[i] in a;
    }
  }

  ghost predicate ShownUntouched(places: seq<Place>, start: Files, now: Files) {
    forall place <- places :: Mirrors(start, place.0, place.1) && Untouched(place.1, start, now)
  }

  lemma LostInIsEmptied(places: seq<Place>, start: Files, now: Files)
    requires ShownUntouched(places, start, now)
    ensures U.LostIn(places, start, now) <==> exists q :: ChargedFor(places, q) && IsEmptied(start, now, q)
  {
    forall place <- places
      ensures U.LostFrom(place, start, now)
              <==> exists q :: HoldsBlocks(place.0, place.1, q) && IsEmptied(start, now, q)
    {
      LostIsEmptied(place.0, place.1, start, now);
    }
    if exists q :: ChargedFor(places, q) && IsEmptied(start, now, q) {
      var q :| ChargedFor(places, q) && IsEmptied(start, now, q);
      var place :| place in places && HoldsBlocks(place.0, place.1, q);
    }
    if U.LostIn(places, start, now) {
      var place :| place in places && U.LostFrom(place, start, now);
      var q :| HoldsBlocks(place.0, place.1, q) && IsEmptied(start, now, q);
      assert ChargedFor(places, q);
    }
  }

  // ----- What a tracker is charged for at a position of a run

  /** The position at which the tracker's items were loaded, or this one when they are not loaded yet. */
  ghost function LoadTime(r: Run, v: int, j: nat): (k: nat)
    requires IsCacheRun(r) && j <= |r.moves|
    ensures k <= j
  {
    var i := U.LoadedBy(r.states, r.moves, v, j);
    if i.Some? then i.value else j
  }

  /**
    The tracker's use is what is there: the items that it still has and the cache
    directories themselves or, before it has loaded items, what a walk would find.
  */
  ghost predicate ChargedRight(r: Run, v: int, j: nat)
    requires IsCacheRun(r) && j <= |r.moves|
  {
    && v in r.paths && v in r.states[j].trackers
    && var t, seen := r.states[j].trackers[v], Seen(r.device, r.disk[0], r.disk[LoadTime(r, v, j)]);
       t.used == if t.loaded then TotalSize(t.items) + U.RootSizes(Places(seen, r.paths[v]))
                 else TreeStats(seen, r.paths[v])
  }

  lemma ChargedUnlessLost(r: Run, v: int, j: nat)
    requires IsCacheRun(r) && j <= |r.moves| && v in r.paths && !QuotaAnswers(r.device, v)
    ensures ChargedRight(r, v, j)
            <==> !U.LostIn(Places(r.device, r.paths[v]), r.disk[0], r.disk[LoadTime(r, v, j)])
  {
    U.UseIsItemsAndRoots(CallOf(r), r.quotas, r.c, r.states, r.moves, r.disk, j, v);
    U.UseIn(r.device, r.paths[v], r.disk[0], r.disk[LoadTime(r, v, j)]);
  }

  lemma NotLoadedAtLoadTime(r: Run, v: int, j: nat)
    requires IsCacheRun(r) && j <= |r.moves| && v in r.paths
    ensures !IsLoaded(r, v, LoadTime(r, v, j))
  {
    U.ItemsShrinkFromBack(r.c, r.states, r.moves, j, v);
  }

  // ----- Until it has loaded them, only other trackers' purges change its cache directories

  lemma NotAbove(a: Path, b: Path, q: Path)
    requires !(a <= b) && !(b <= a) && b <= q
    ensures !(a <= q)
  {
    if a <= q {
      Comparable(a, b, q);
    }
  }

  /** A purge before then is another tracker's, and apart from the cache directory. */
  lemma TakenApart(r: Run, v: int, place: Place, i: nat)
    requires IsCacheRun(r) && Taking(r, i) && v in r.paths && place in Places(r.device, r.paths[v])
    requires !IsLoaded(r, v, i)
    ensures Taker(r, i) != v && !(Taken(r, i).path <= place.1) && !(place.1 <= Taken(r, i).path)
  {
    TakerIsLoaded(r, i);
    var s := TakenFrom(r, i);
    var p := SpotAtStart(r, s);
    OtherTracker(r.device, r.paths, Spot(v, place), Spot(s.u, p));
    NotAbove(place.1, p.1, Taken(r, i).path);
  }

  lemma PlaceUntouchedAt(r: Run, v: int, place: Place, i: nat)
    requires IsCacheRun(r) && i < |r.moves| && v in r.paths && place in Places(r.device, r.paths[v])
    requires !IsLoaded(r, v, i)
    ensures Untouched(place.1, r.disk[i], r.disk[i + 1])
  {
    if Taking(r, i) {
      TakenApart(r, v, place, i);
      TakenIsPurged(r, i);
      var item := Taken(r, i);
      PurgeElsewhere(r.disk[i], r.disk[i + 1], place.1, item.path, item.directory, item.tombstone);
      SameEntriesBelow(r.disk[i], r.disk[i + 1], place.1);
    } else {
      assert F.DiskAt(CallOf(r), r.states, r.moves, r.disk, i);
    }
  }

  lemma PlacesUntouched(r: Run, v: int, k: nat)
    requires IsCacheRun(r) && k <= |r.moves| && v in r.paths && !IsLoaded(r, v, k)
    ensures ShownUntouched(Places(r.device, r.paths[v]), r.disk[0], r.disk[k])
  {
    F.PlacesShow(r.device, r.disk[0], r.paths[v]);
    NotLoadedYet(r, v, k);
    forall place <- Places(r.device, r.paths[v]) ensures Untouched(place.1, r.disk[0], r.disk[k]) {
      forall i | 0 <= i < k ensures UntouchedStep(place.1, r.disk, i) {
        PlaceUntouchedAt(r, v, place, i);
      }
      UntouchedSoFar(place.1, r.disk, k);
    }
  }

  /** A file that it is charged for is only changed by purges that empty its inode. */
  lemma ChargedIsSpectator(r: Run, v: int, k: nat, q: Path)
    requires IsCacheRun(r) && k <= |r.moves| && v in r.paths && !IsLoaded(r, v, k)
    requires ChargedFor(Places(r.device, r.paths[v]), q)
    ensures IsEmptied(r.disk[0], r.disk[k], q)
            <==> IsFile(r.disk[0], q) && !r.disk[0][q].empty && EmptiedBefore(r, k, q)
  {
    var place :| place in Places(r.device, r.paths[v]) && HoldsBlocks(place.0, place.1, q);
    F.PlacesShow(r.device, r.disk[0], r.paths[v]);
    BlocksAreThere(r.disk[0], place.0, place.1, q);
    NotLoadedYet(r, v, k);
    forall i | 0 <= i < k && Taking(r, i) ensures !(Taken(r, i).path <= q) {
      TakenApart(r, v, place, i);
      NotAbove(Taken(r, i).path, place.1, q);
    }
    SpectatorChanges(r, k, q);
  }

  /** Some file that it is charged for was emptied. */
  ghost predicate LosesCharged(r: Run, v: int, k: nat, q: Path)
    requires IsCacheRun(r) && k <= |r.moves|
  {
    && v in r.paths && ChargedFor(Places(r.device, r.paths[v]), q)
    && IsFile(r.disk[0], q) && !r.disk[0][q].empty && EmptiedBefore(r, k, q)
  }

  lemma ChargedUnlessEmptied(r: Run, v: int, j: nat)
    requires IsCacheRun(r) && j <= |r.moves| && v in r.paths && !QuotaAnswers(r.device, v)
    ensures ChargedRight(r, v, j) <==> !exists q :: LosesCharged(r, v, LoadTime(r, v, j), q)
  {
    var k, places := LoadTime(r, v, j), Places(r.device, r.paths[v]);
    ChargedUnlessLost(r, v, j);
    NotLoadedAtLoadTime(r, v, j);
    PlacesUntouched(r, v, k);
    LostInIsEmptied(places, r.disk[0], r.disk[k]);
    forall q | ChargedFor(places, q)
      ensures IsEmptied(r.disk[0], r.disk[k], q) <==> LosesCharged(r, v, k, q)
    {
      ChargedIsSpectator(r, v, k, q);
    }
  }

  /** Once a tracker is charged for too much it stays so; loading its items does not correct it. */
  lemma ChargeStaysWrong(r: Run, v: int, i: nat, j: nat)
    requires IsCacheRun(r) && i <= j <= |r.moves| && v in r.paths && !QuotaAnswers(r.device, v)
    requires !ChargedRight(r, v, i)
    ensures !ChargedRight(r, v, j)
  {
    ChargedUnlessEmptied(r, v, i);
    ChargedUnlessEmptied(r, v, j);
    LoadTimeGrows(r, v, i, j);
    var q :| LosesCharged(r, v, LoadTime(r, v, i), q);
    assert LosesCharged(r, v, LoadTime(r, v, j), q);
  }

  lemma {:induction false} LoadTimeGrows(r: Run, v: int, i: nat, j: nat)
    requires IsCacheRun(r) && i <= j <= |r.moves|
    ensures LoadTime(r, v, i) <= LoadTime(r, v, j)
    decreases j
  {
    if i < j {
      LoadTimeGrows(r, v, i, j - 1);
    }
  }

  // ----- Exactly when it can go wrong

  /** A file that the tracker is charged for, with contents, that a cache directory of another tracker exposes. */
  ghost predicate AtRisk(device: Device, paths: F.DataPaths, fs: Files, v: int, q: Path) {
    && v in paths && ChargedFor(Places(device, paths[v]), q)
    && IsFile(fs, q) && !fs[q].empty && Exposed(device, paths, fs, Some(v), fs[q].ino)
  }

  /**
    A tracker that is measured by walking its trees is charged for what is there,
    in every run and at every point of it, whatever the modification times, the
    quotas and the library's sort, exactly when no file with contents that it is
    charged for shares its inode with a regular file in a tombstoned directory of
    another tracker's cache, or with a file that a lone tombstoned link there
    leads to.
  */
  lemma ChargedIsThere(device: Device, paths: F.DataPaths, fs: Files, v: int)
    requires F.Shows(device, fs) && Apart(device, paths) && v in paths
    ensures (forall r: Run, j: nat |
               RunsFrom(r, device, paths, fs) && !QuotaAnswers(r.device, v) && j <= |r.moves| :: ChargedRight(r, v, j))
            <==> !exists q :: AtRisk(device, paths, fs, v, q)
  {
    if exists q :: AtRisk(device, paths, fs, v, q) {
      var q :| AtRisk(device, paths, fs, v, q);
      var r := ChargedEmptied(device, paths, fs, v, q);
      assert !ChargedRight(r, v, 2);
    } else {
      forall r: Run, j: nat | RunsFrom(r, device, paths, fs) && !QuotaAnswers(r.device, v) && j <= |r.moves|
        ensures ChargedRight(r, v, j)
      {
        ChargedUnlessEmptied(r, v, j);
        forall q ensures !LosesCharged(r, v, LoadTime(r, v, j), q) {
          if LosesCharged(r, v, LoadTime(r, v, j), q) {
            EmptiedWasAtRisk(r, device, v, j, q);
          }
        }
      }
    }
  }

  lemma EmptiedWasAtRisk(r: Run, device: Device, v: int, j: nat, q: Path)
    requires IsCacheRun(r) && SameCaches(device, r.device) && j <= |r.moves|
    requires LosesCharged(r, v, LoadTime(r, v, j), q)
    ensures AtRisk(device, r.paths, r.disk[0], v, q)
  {
    var k := LoadTime(r, v, j);
    var i :| 0 <= i < k && EmptiesAt(r, i, q);
    var place := EmptiedWasExposed(r, device, i, q);
    NotLoadedAtLoadTime(r, v, j);
    NotLoadedYet(r, v, k);
    TakerIsLoaded(r, i);
    SamePlacesOf(device, r.device, r.paths[v]);
    SameCharge(Places(device, r.paths[v]), Places(r.device, r.paths[v]), q);
  }

  /** A file at risk has a run of two moves that empties it before its tracker has loaded anything. */
  lemma ChargedEmptied(device: Device, paths: F.DataPaths, fs: Files, v: int, q: Path) returns (r: Run)
    requires F.Shows(device, fs) && Apart(device, paths) && AtRisk(device, paths, fs, v, q)
    ensures RunsFrom(r, device, paths, fs) && |r.moves| == 2
    ensures !QuotaAnswers(r.device, v) && !ChargedRight(r, v, 2)
  {
    var u, place :| ExposedBy(device, paths, fs, u, place, fs[q].ino) && Some(v) != Some(u);
    F.PlacesShow(device, fs, paths[u]);
    assert Separate(Places(device, paths[u]));
    var item := ExposingItem(fs, place, fs[q].ino);
    r := ItemRun(device, paths, fs, u, place, item, v);
    ChargedIsElsewhere(device, paths, fs, u, place, item, v, q);
    PurgeLeaves(fs, r.disk[2], item.path, item.directory, item.tombstone, q);
    SamePlacesOf(device, r.device, paths[v]);
    SameCharge(Places(device, paths[v]), Places(r.device, paths[v]), q);
    LosesInTwo(r, v, q);
  }

  lemma ChargedIsElsewhere(device: Device, paths: F.DataPaths, fs: Files, u: int, place: Place, item: Item,
                           v: int, q: Path)
    requires F.Shows(device, fs) && Apart(device, paths) && u in paths && v in paths && u != v
    requires place in Places(device, paths[u]) && item in LoadTree(place.0, place.1)
    requires ChargedFor(Places(device, paths[v]), q)
    ensures !(item.path <= q)
  {
    var other :| other in Places(device, paths[v]) && HoldsBlocks(other.0, other.1, q);
    F.PlacesShow(device, fs, paths[v]);
    BlocksAreThere(fs, other.0, other.1, q);
    ItemIsBelow(place.0, place.1, item);
    OtherTracker(device, paths, Spot(u, place), Spot(v, other));
    NotAbove(place.1, other.1, q);
  }

  lemma LosesInTwo(r: Run, v: int, q: Path)
    requires IsCacheRun(r) && |r.moves| == 2 && v in r.paths && !QuotaAnswers(r.device, v)
    requires v in r.states[2].trackers ==> !r.states[2].trackers[v].loaded
    requires ChargedFor(Places(r.device, r.paths[v]), q) && IsEmptied(r.disk[0], r.disk[2], q)
    ensures !ChargedRight(r, v, 2)
  {
    U.ItemsShrinkFromBack(r.c, r.states, r.moves, 2, v);
    ChargedUnlessEmptied(r, v, 2);
    ChargedIsSpectator(r, v, 2, q);
    assert LosesCharged(r, v, LoadTime(r, v, 2), q);
  }

  // ----- An input on which it goes wrong

  /** A tracker's cache directory holds one file, of eight blocks. */
  ghost function ChargedTree(): Node {
    Dir("second", STAT, Xattrs(false, false, 0, 0), [Leaf("f", Regular, Stat(0, 0, 0, 8, 0))])
  }

  /** The cache directory of the other tracker has a tombstoned directory with a link to the file in it. */
  ghost function TwoDevice(kind: Kind): Device {
    Device(p => if p == ["cache"] then Some(LinkedTree(kind))
                else if p == ["second"] then Some(ChargedTree()) else None,
           (p, now) => 0, p => if p == ["d"] then ["cache"] else if p == ["e"] then ["second"] else ["none"],
           p => ["none"], false, uid => -1, uid => -1, gid => -1, n => Insertion)
  }

  const SOFT_LINK_THERE := Plain(Symlink, false, Link(true, ["second", "f"]), 2)

  ghost function TwoFiles(link: Inode): Files {
    map[[] := Folder(false), ["cache"] := Folder(false), ["cache", "t"] := Folder(true), ["cache", "t", "x"] := link,
        ["second"] := Folder(false), ["second", "f"] := Plain(Regular, false, NO_LINK, 1)]
  }

  ghost function TwoPaths(): F.DataPaths {
    map[1 := [["d"]], 2 := [["e"]]]
  }

  lemma TwoShown(link: Inode)
    requires link.Plain?
    ensures F.Shows(TwoDevice(link.kind), TwoFiles(link))
  {
    StartsWith("cache", TwoFiles(link).Keys);
    assert HoldsLinked(TwoFiles(link), link);
    LinkedMirrors(TwoFiles(link), link);
    ChargedMirrors(link);
  }

  lemma StartsWith(name: string, keys: set<Path>)
    ensures forall q <- keys | [name] < q :: |q| > 1 && q[0] == name
  {
  }

  lemma ChargedMirrors(link: Inode)
    ensures Mirrors(TwoFiles(link), ChargedTree(), ["second"])
  {
    var f := ChargedTree().children[0];
    StartsWith("second", TwoFiles(link).Keys);
    assert !Holds(TwoFiles(link), ["second", "f"]) by {
      assert forall q <- TwoFiles(link).Keys | ["second", "f"] < q :: q[0] == "second" && |q| > 2;
    }
    assert Mirrors(TwoFiles(link), f, ["second", "f"]);
    MirrorsOne(TwoFiles(link), ChargedTree(), f, ["second"], ["second", "f"]);
  }

  lemma TwoPlaces(kind: Kind)
    ensures Places(TwoDevice(kind), TwoPaths()[1]) == [LinkedPlace(kind)]
    ensures Places(TwoDevice(kind), TwoPaths()[2]) == [(ChargedTree(), ["second"])]
  {
    assert [["d"]][..0] == [] && [["e"]][..0] == [];
    assert Places(TwoDevice(kind), [["d"]]) == [LinkedPlace(kind)];
    assert Places(TwoDevice(kind), [["e"]]) == [(ChargedTree(), ["second"])];
  }

  lemma TwoApart(kind: Kind)
    ensures Apart(TwoDevice(kind), TwoPaths())
  {
    LinkedIsDistinct(kind);
    OneChild(ChargedTree().children[0]);
    var one, other := LinkedPlace(kind), (ChargedTree(), ["second"]);
    assert one.1[0] == "cache" && other.1[0] == "second";
    TwoPlacesApart(one, other);
    TwoArePlaces(kind);
    ApartByPlaces(TwoDevice(kind), TwoPaths(), map[1 := [one], 2 := [other]]);
  }

  lemma TwoArePlaces(kind: Kind)
    ensures ArePlaces(TwoDevice(kind), TwoPaths(), map[1 := [LinkedPlace(kind)], 2 := [(ChargedTree(), ["second"])]])
  {
    TwoPlaces(kind);
  }

  lemma TwoPlacesApart(one: Place, other: Place)
    requires DistinctNames(one.0) && DistinctNames(other.0) && !(one.1 <= other.1) && !(other.1 <= one.1)
    ensures PlacesApart(map[1 := [one], 2 := [other]])
  {
    OneSeparate(one);
    OneSeparate(other);
    ApartPlaces(one, other);
    ApartPlaces(other, one);
  }

  lemma ApartPlaces(x: Place, y: Place)
    requires !(x.1 <= y.1) && !(y.1 <= x.1)
    ensures forall a <- [x], b <- [y] :: !(a.1 <= b.1) && !(b.1 <= a.1)
  {
  }

  ghost predicate ArePlaces(device: Device, paths: F.DataPaths, places: map<int, seq<Place>>) {
    paths.Keys == places.Keys && forall u <- paths.Keys :: Places(device, paths[u]) == places[u]
  }

  /** The cache directories of all trackers lie apart. */
  ghost predicate PlacesApart(places: map<int, seq<Place>>) {
    && (forall u <- places.Keys :: Separate(places[u]))
    && (forall u <- places.Keys, v <- places.Keys | u != v ::
          forall a <- places[u], b <- places[v] :: !(a.1 <= b.1) && !(b.1 <= a.1))
  }

  lemma ApartByPlaces(device: Device, paths: F.DataPaths, places: map<int, seq<Place>>)
    requires ArePlaces(device, paths, places) && PlacesApart(places)
    ensures Apart(device, paths)
  {
    forall u <- paths.Keys, v <- paths.Keys | u != v
      ensures forall a <- Places(device, paths[u]), b <- Places(device, paths[v]) :: !(a.1 <= b.1) && !(b.1 <= a.1)
    {
      assert Places(device, paths[u]) == places[u] && Places(device, paths[v]) == places[v];
    }
  }

  lemma TwoTarget()
    ensures TruncateTarget(TwoFiles(SOFT_LINK_THERE), ["cache", "t", "x"]) == Some(["second", "f"])
  {
    var fs, x := TwoFiles(SOFT_LINK_THERE), ["cache", "t", "x"];
    var n: nat := MAX_LINKS - 1;
    assert ["second", "f"] + [] == ["second", "f"] && ["second", "f"][1..] == ["f"] && ["f"][1..] == [];
    assert Reach(fs, x, [], MAX_LINKS) == Resolve(fs, [], ["second", "f"] + [], n);
    assert Resolve(fs, [], ["second", "f"], n) == Reach(fs, [] + ["second"], ["f"], n);
    assert [] + ["second"] == ["second"] && ["second"] + ["f"] == ["second", "f"];
    assert Reach(fs, ["second"], ["f"], n) == Resolve(fs, ["second"], ["f"], n);
    assert Resolve(fs, ["second"], ["f"], n) == Reach(fs, ["second", "f"], [], n);
  }

  lemma TwoExposed(link: Inode)
    requires link == SOFT_LINK_THERE || link == HARD_LINK
    ensures Exposes(TwoFiles(link), LinkedPlace(link.kind), 1)
  {
    var fs, x := TwoFiles(link), ["cache", "t", "x"];
    if link == HARD_LINK {
      assert ParentOf(x) == ["cache", "t"] && ParentOf(["cache", "t"]) == ["cache"];
      assert Spared(fs, ["cache"], false, x);
    } else {
      TwoTarget();
      var item := LinkedItem(Symlink);
      assert LeadsTo(fs, item, 1);
    }
  }

  /**
    Two trackers: a run makes the first one purge a link, soft or hard, to the
    file in the second one's cache directory, and from then on the second one is
    charged for eight blocks that are gone.
  */
  lemma ChargedForNothing(link: Inode) returns (r: Run)
    requires link == SOFT_LINK_THERE || link == HARD_LINK
    ensures RunsFrom(r, TwoDevice(link.kind), TwoPaths(), TwoFiles(link)) && |r.moves| == 2
    ensures !QuotaAnswers(r.device, 2) && !ChargedRight(r, 2, 2)
  {
    var device, fs, q := TwoDevice(link.kind), TwoFiles(link), ["second", "f"];
    TwoShown(link);
    TwoApart(link.kind);
    TwoAtRisk(link);
    r := ChargedEmptied(device, TwoPaths(), fs, 2, q);
  }

  lemma TwoAtRisk(link: Inode)
    requires link == SOFT_LINK_THERE || link == HARD_LINK
    ensures AtRisk(TwoDevice(link.kind), TwoPaths(), TwoFiles(link), 2, ["second", "f"])
  {
    var device, paths := TwoDevice(link.kind), TwoPaths();
    TwoPlaces(link.kind);
    TwoExposed(link);
    assert ExposedBy(device, paths, TwoFiles(link), 1, LinkedPlace(link.kind), 1) by {
      assert LinkedPlace(link.kind) in [LinkedPlace(link.kind)];
    }
    assert ChargedFor(Places(device, paths[2]), ["second", "f"]) by {
      var place := (ChargedTree(), ["second"]);
      assert place in [place];
      assert HoldsBlocks(ChargedTree().children[0], ["second"] + ["f"], ["second", "f"]);
    }
  }
}
