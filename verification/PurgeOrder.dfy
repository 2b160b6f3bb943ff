/**
  The order in which a tracker's items are purged: sorted newest first, then
  popped from the back. Raising modification times to parents makes every
  directory sort before everything in it, so it is purged after everything in it.
*/
module PurgeOrder {
  import opened Fts
  import opened CacheItems
  import opened CacheCoverage

  /** The comparator handed to stable_sort. */
  predicate Comes(l: Item, r: Item) {
    if l.modified != r.modified then l.modified > r.modified
    else if l.level != r.level then l.level < r.level
    else l.directory
  }

  /** The order it is meant to be: newest first, then shallow first, then directories first. */
  predicate Before(l: Item, r: Item) {
    if l.modified != r.modified then l.modified > r.modified
    else if l.level != r.level then l.level < r.level
    else l.directory && !r.directory
  }

  ghost predicate Tie(l: Item, r: Item) {
    l.modified == r.modified && l.level == r.level && l.directory && r.directory
  }

  /**
    The comparator is not a strict order: it claims both directions for two
    directories of equal age and depth. These ties are its only fault.
  */
  lemma ComparatorFault(l: Item, r: Item)
    ensures (Comes(l, r) && Comes(r, l)) <==> Tie(l, r)
    ensures (Comes(l, r) <==> Before(l, r)) <==> !Tie(l, r)
    ensures !(Before(l, r) && Before(r, l))
  {
  }

  ghost predicate Sorted(items: seq<Item>) {
    forall i, j :: 0 <= i < j < |items| ==> !Before(items[j], items[i])
  }

  ghost predicate Arranges(items: seq<Item>, sorted: seq<Item>) {
    multiset(sorted) == multiset(items) && Sorted(sorted)
  }

  // ----- Sorting, as the comparator really decides it

  /** Puts `x` behind the last of the sorted items that it does not come before. */
  function InsertItem(items: seq<Item>, x: Item): (r: seq<Item>)
    ensures |r| == |items| + 1
  {
    if items == [] then [x]
    else
      var last := |items| - 1;
      if Comes(x, items[last]) then InsertItem(items[..last], x) + [items[last]]
      else items + [x]
  }

  function InsertionSorted(items: seq<Item>): (r: seq<Item>)
    ensures |r| == |items|
  {
    if items == [] then []
    else InsertItem(InsertionSorted(items[..|items| - 1]), items[|items| - 1])
  }

  lemma {:induction false} InsertSorts(items: seq<Item>, x: Item)
    requires Sorted(items)
    ensures Sorted(InsertItem(items, x)) && multiset(InsertItem(items, x)) == multiset(items) + multiset{x}
  {
    if items != [] {
      var last := |items| - 1;
      assert items == items[..last] + [items[last]];
      if Comes(x, items[last]) {
        InsertSorts(items[..last], x);
        var r := InsertItem(items[..last], x);
        forall i | 0 <= i < |r| ensures !Before(items[last], r[i]) {
          assert r[i] in multiset(r);
          assert r[i] == x || r[i] in items[..last];
        }
      } else {
        forall i | 0 <= i < |items| ensures !Before(x, items[i]) {
          assert !Before(items[last], items[i]) || i == last;
        }
      }
    }
  }

  lemma {:induction false} InsertionSorts(items: seq<Item>)
    ensures Arranges(items, InsertionSorted(items))
  {
    if items != [] {
      var rest := items[..|items| - 1];
      assert items == rest + [items[|items| - 1]];
      InsertionSorts(rest);
      InsertSorts(InsertionSorted(rest), items[|items| - 1]);
    }
  }

  /** Takes from the right only what comes before the left one's first. */
  function Merged(left: seq<Item>, right: seq<Item>): seq<Item> {
    if left == [] then right
    else if right == [] then left
    else if Comes(right[0], left[0]) then [right[0]] + Merged(left, right[1..])
    else [left[0]] + Merged(left[1..], right)
  }

  lemma {:induction false} MergeSorts(left: seq<Item>, right: seq<Item>)
    requires Sorted(left) && Sorted(right)
    ensures Sorted(Merged(left, right)) && multiset(Merged(left, right)) == multiset(left) + multiset(right)
  {
    if left != [] && right != [] {
      assert left == [left[0]] + left[1..] && right == [right[0]] + right[1..];
      if Comes(right[0], left[0]) {
        MergeSorts(left, right[1..]);
        FirstOf(right[0], left, right[1..], Merged(left, right[1..]));
      } else {
        MergeSorts(left[1..], right);
        FirstOf(left[0], left[1..], right, Merged(left[1..], right));
      }
    }
  }

  /** What nothing in two lists is before, nothing in their merge is before. */
  lemma FirstOf(x: Item, left: seq<Item>, right: seq<Item>, merged: seq<Item>)
    requires multiset(merged) == multiset(left) + multiset(right) && Sorted(merged)
    requires forall y <- left + right :: !Before(y, x)
    ensures Sorted([x] + merged)
  {
    forall i | 0 <= i < |merged| ensures !Before(merged[i], x) {
      assert merged[i] in multiset(merged);
      assert merged[i] in left + right;
    }
  }

  /** How a library sorts a list: by insertion, or in two parts that are merged. */
  datatype Plan = Insertion | Halves(at: nat, left: Plan, right: Plan)

  /** Where the right part begins. */
  function Split(plan: Plan, n: nat): (k: nat)
    requires plan.Halves?
    ensures k <= n
  {
    if plan.at <= n then plan.at else n
  }

  function SortedItems(plan: Plan, items: seq<Item>): seq<Item> {
    match plan
    case Insertion => InsertionSorted(items)
    case Halves(_, left, right) =>
      var k := Split(plan, |items|);
      Merged(SortedItems(left, items[..k]), SortedItems(right, items[k..]))
  }

  /**
    In spite of its fault the comparator sorts, however the library mixes
    insertion and merging: the result is a permutation in the intended order.
  */
  lemma {:induction false} SortingArranges(plan: Plan, items: seq<Item>)
    ensures Arranges(items, SortedItems(plan, items))
    decreases plan
  {
    match plan
    case Insertion => InsertionSorts(items);
    case Halves(_, left, right) =>
      var k := Split(plan, |items|);
      assert items == items[..k] + items[k..];
      SortingArranges(left, items[..k]);
      SortingArranges(right, items[k..]);
      MergeSorts(SortedItems(left, items[..k]), SortedItems(right, items[k..]));
  }

  // ----- Parents before children

  /** A tree to load items from, and where it is. */
  type Place = (Node, Path)

  ghost function LoadPlaces(places: seq<Place>): seq<Item> {
    if places == [] then [] else LoadTree(places[0].0, places[0].1) + LoadPlaces(places[1..])
  }

  /** Names are distinct in every tree and no tree is inside another one. */
  ghost predicate Separate(places: seq<Place>) {
    && (forall p <- places :: DistinctNames(p.0))
    && (forall i, j :: 0 <= i < j < |places| ==> !(places[i].1 <= places[j].1) && !(places[j].1 <= places[i].1))
  }

  /** A directory's item is at least as new as, and nearer to the root than, every item in it. */
  ghost predicate Bubbled(items: seq<Item>) {
    forall a <- items, b <- items | a.path < b.path :: a.modified >= b.modified && a.level < b.level
  }

  lemma ItemsInPlace(place: Place)
    ensures forall item <- LoadTree(place.0, place.1) :: place.1 <= item.path
  {
    if place.0.Dir? {
      ItemsAllAreBelow(place.0.children, place.1, 0, false);
    }
  }

  lemma TreeIsBubbled(root: Node, path: Path)
    requires DistinctNames(root)
    ensures Bubbled(LoadTree(root, path))
  {
    var items, stamps := LoadTree(root, path), Stamps(root, path);
    ModifiedIsNewest(root, path);
    if root.Dir? {
      ItemsAllAreBelow(root.children, path, 0, false);
    }
    forall a <- items, b <- items | a.path < b.path ensures a.modified >= b.modified && a.level < b.level {
      var s :| s in stamps && b.path <= s.0 && s.1 == b.modified;
      assert a.path <= s.0;
    }
  }

  lemma {:induction false} ItemFromPlace(places: seq<Place>, item: Item) returns (i: nat)
    requires item in LoadPlaces(places)
    ensures i < |places| && item in LoadTree(places[i].0, places[i].1)
  {
    if item in LoadTree(places[0].0, places[0].1) {
      i := 0;
    } else {
      i := ItemFromPlace(places[1..], item);
      i := i + 1;
    }
  }

  lemma PlacesAreBubbled(places: seq<Place>)
    requires Separate(places)
    ensures Bubbled(LoadPlaces(places))
  {
    var items := LoadPlaces(places);
    forall a <- items, b <- items | a.path < b.path ensures a.modified >= b.modified && a.level < b.level {
      var i := ItemFromPlace(places, a);
      var j := ItemFromPlace(places, b);
      ItemsInPlace(places[i]);
      ItemsInPlace(places[j]);
      assert places[i].1 <= b.path && places[j].1 <= b.path;
      assert i == j;
      TreeIsBubbled(places[i].0, places[i].1);
    }
  }

  /** Every item comes after the items of all directories it is in. */
  ghost predicate ParentsFirst(items: seq<Item>) {
    forall i, j :: 0 <= i < |items| && 0 <= j < |items| && items[j].path < items[i].path ==> j < i
  }

  lemma ParentsSortFirst(places: seq<Place>, sorted: seq<Item>)
    requires Separate(places) && Arranges(LoadPlaces(places), sorted)
    ensures ParentsFirst(sorted)
  {
    PlacesAreBubbled(places);
    forall i, j | 0 <= i < |sorted| && 0 <= j < |sorted| && sorted[j].path < sorted[i].path ensures j < i {
      assert sorted[i] in multiset(sorted) && sorted[j] in multiset(sorted);
      assert Before(sorted[j], sorted[i]);
    }
  }

  /**
    At every point of popping from the back, with `left` items still there,
    the directories of every remaining item remain too, and the item popped
    next has nothing left in it.
  */
  lemma RemainingIsAncestorClosed(places: seq<Place>, sorted: seq<Item>, left: nat)
    requires Separate(places) && Arranges(LoadPlaces(places), sorted)
    requires left <= |sorted|
    ensures forall a <- sorted, b <- sorted[..left] | a.path < b.path :: a in sorted[..left]
    ensures left > 0 ==> forall b <- sorted[..left] :: !(sorted[left - 1].path < b.path)
  {
    ParentsSortFirst(places, sorted);
    forall a <- sorted, b <- sorted[..left] | a.path < b.path ensures a in sorted[..left] {
      var i, j :| 0 <= i < left && sorted[i] == b && 0 <= j < |sorted| && sorted[j] == a;
      assert sorted[..left][j] == a;
    }
  }
}
