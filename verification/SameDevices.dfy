/** Devices whose cache directories hold the same, up to modification times. */
module SameDevices {
  import opened Wrappers
  import opened Fts
  import opened CacheCoverage
  import opened PurgeOrder
  import opened Purge
  import opened SeenTrees
  import opened CacheTrackers
  import opened CacheRuns
  import F = FreeCache

  // ----- Trees up to their modification times

  ghost function Timeless(n: Node): Node {
    match n
    case Leaf(name, kind, stat) => Leaf(name, kind, stat.(mtime := 0))
    case Dir(name, stat, xattrs, children) => Dir(name, stat.(mtime := 0), xattrs, TimelessAll(children))
  }

  ghost function TimelessAll(children: seq<Node>): (r: seq<Node>)
    ensures |r| == |children|
    ensures forall i :: 0 <= i < |children| ==> r[i] == Timeless(children[i])
  {
    if children == [] then [] else [Timeless(children[0])] + TimelessAll(children[1..])
  }

  lemma {:induction false} BonesTimeless(n: Node)
    ensures Bones(Timeless(n)) == Bones(n)
    decreases n
  {
    if n.Dir? {
      BonesAllTimeless(n.children);
    }
  }

  lemma {:induction false} BonesAllTimeless(children: seq<Node>)
    ensures BonesAll(TimelessAll(children)) == BonesAll(children)
    decreases children
  {
    if children != [] {
      BonesTimeless(children[0]);
      BonesAllTimeless(children[1..]);
      assert TimelessAll(children)[1..] == TimelessAll(children[1..]);
    }
  }

  lemma SameBones(a: Node, b: Node)
    requires Timeless(a) == Timeless(b)
    ensures Bones(a) == Bones(b)
  {
    BonesTimeless(a);
    BonesTimeless(b);
  }

  // ----- Devices with the same caches

  ghost predicate SameButTimes(a: Option<Node>, b: Option<Node>) {
    if a.Some? then b.Some? && Timeless(a.value) == Timeless(b.value) else b.None?
  }

  /** The same cache directories, holding the same up to modification times. */
  ghost predicate SameCaches(a: Device, b: Device) {
    && a.cache == b.cache && a.codeCache == b.codeCache
    && (forall p: Path :: SameButTimes(a.tree(p), b.tree(p)))
  }

  ghost predicate SamePlace(a: Place, b: Place) {
    a.1 == b.1 && Timeless(a.0) == Timeless(b.0)
  }

  ghost predicate SamePlaces(a: seq<Place>, b: seq<Place>) {
    |a| == |b| && forall i :: 0 <= i < |a| ==> SamePlace(a[i], b[i])
  }

  lemma {:induction false} SamePlacesOf(a: Device, b: Device, dataPaths: seq<Path>)
    requires SameCaches(a, b)
    ensures SamePlaces(Places(a, dataPaths), Places(b, dataPaths))
  {
    if dataPaths != [] {
      var last := |dataPaths| - 1;
      SamePlacesOf(a, b, dataPaths[..last]);
      assert SamePlaces(PlacesAt(a, dataPaths[last]), PlacesAt(b, dataPaths[last]));
    }
  }

  lemma SamePlaceOf(a: Device, b: Device, dataPaths: seq<Path>, place: Place) returns (other: Place)
    requires SameCaches(a, b) && place in Places(a, dataPaths)
    ensures other in Places(b, dataPaths) && SamePlace(place, other)
  {
    SamePlacesOf(a, b, dataPaths);
    var i :| 0 <= i < |Places(a, dataPaths)| && Places(a, dataPaths)[i] == place;
    other := Places(b, dataPaths)[i];
  }

  lemma SameIsSymmetric(a: Device, b: Device)
    requires SameCaches(a, b)
    ensures SameCaches(b, a)
  {
    forall p: Path ensures SameButTimes(b.tree(p), a.tree(p)) {
      assert SameButTimes(a.tree(p), b.tree(p));
    }
  }

  lemma SameOutside(a: Device, b: Device, paths: F.DataPaths, q: Path)
    requires SameCaches(a, b) && Outside(a, paths, q)
    ensures Outside(b, paths, q)
  {
    SameIsSymmetric(a, b);
    forall u <- paths.Keys, place <- Places(b, paths[u]) ensures !(place.1 < q) {
      var other := SamePlaceOf(b, a, paths[u], place);
    }
  }

  lemma SameShows(a: Device, b: Device, fs: Files)
    requires SameCaches(a, b) && F.Shows(a, fs)
    ensures F.Shows(b, fs)
  {
    forall p: Path | b.tree(p).Some? ensures Mirrors(fs, b.tree(p).value, p) {
      assert SameButTimes(a.tree(p), b.tree(p));
      SameBones(a.tree(p).value, b.tree(p).value);
      MirrorsBones(fs, a.tree(p).value, p);
      MirrorsBones(fs, b.tree(p).value, p);
    }
  }

  lemma SameSeparate(a: seq<Place>, b: seq<Place>)
    requires SamePlaces(a, b) && Separate(a)
    ensures Separate(b)
  {
    forall p <- b ensures DistinctNames(p.0) {
      var i :| 0 <= i < |b| && b[i] == p;
      assert SamePlace(a[i], b[i]) && a[i] in a;
      SameBones(a[i].0, b[i].0);
      DistinctBones(a[i].0);
      DistinctBones(b[i].0);
    }
    forall i, j | 0 <= i < j < |b| ensures !(b[i].1 <= b[j].1) && !(b[j].1 <= b[i].1) {
      assert SamePlace(a[i], b[i]) && SamePlace(a[j], b[j]);
    }
  }

  lemma SameApart(a: Device, b: Device, paths: F.DataPaths)
    requires SameCaches(a, b) && Apart(a, paths)
    ensures Apart(b, paths)
  {
    SameIsSymmetric(a, b);
    forall u <- paths.Keys ensures Separate(Places(b, paths[u])) {
      SamePlacesOf(a, b, paths[u]);
      SameSeparate(Places(a, paths[u]), Places(b, paths[u]));
    }
    forall u <- paths.Keys, v <- paths.Keys | u != v
      ensures forall x <- Places(b, paths[u]), y <- Places(b, paths[v]) :: !(x.1 <= y.1) && !(y.1 <= x.1)
    {
      SamePathsApart(a, b, paths[u], paths[v]);
    }
  }

  lemma SamePathsApart(a: Device, b: Device, one: seq<Path>, other: seq<Path>)
    requires SameCaches(b, a)
    requires forall x <- Places(a, one), y <- Places(a, other) :: !(x.1 <= y.1) && !(y.1 <= x.1)
    ensures forall x <- Places(b, one), y <- Places(b, other) :: !(x.1 <= y.1) && !(y.1 <= x.1)
  {
    forall x <- Places(b, one), y <- Places(b, other) ensures !(x.1 <= y.1) && !(y.1 <= x.1) {
      var x' := SamePlaceOf(b, a, one, x);
      var y' := SamePlaceOf(b, a, other, y);
    }
  }
}
