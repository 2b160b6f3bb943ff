/**
  The classes CacheItem and CacheTracker: loading a cache tree into item objects
  through the walk's entries, sorting them, and purging one of them.
*/
module CacheTrackers {
  import opened Wrappers
  import opened Fts
  import opened CacheItems
  import opened PurgeOrder
  import opened SeenTrees
  import TreeSize
  import P = Purge
  import Bounce

  /** The part of the file system under the cache directories. */
  class FileSystem {
    var files: P.Files

    constructor (files: P.Files)
      ensures this.files == files
    {
      this.files := files;
    }

    method Unlink(p: Path) returns (res: int)
      modifies this
      ensures files == P.Unlink(old(files), p)
      ensures res == if P.CanUnlink(old(files), p) then 0 else -1
    {
      res := -1;
      if p in files && files[p].Plain? {
        files := files - {p};
        res := 0;
      }
    }

    method Truncate(p: Path) returns (res: int)
      modifies this
      ensures files == P.Truncate(old(files), p)
      ensures res == if P.CanTruncate(old(files), p) then 0 else -1
    {
      res := -1;
      var target := P.TruncateTarget(files, p);
      if target.Some? {
        var ino := files[target.value].ino;
        files := map q | q in files :: P.Drained(files[q], {ino});
        res := 0;
      }
    }

    method Rmdir(p: Path) returns (res: int)
      modifies this
      ensures files == P.Rmdir(old(files), p)
      ensures res == if P.CanRmdir(old(files), p) then 0 else -1
    {
      res := -1;
      if p in files && files[p].Folder? && !P.Holds(files, p) {
        files := files - {p};
        res := 0;
      }
    }
  }

  class CacheItem {
    const level: nat
    const directory: bool
    var group: bool
    var tombstone: bool
    var size: int
    var modified: int
    const parent: CacheItem?
    const name: Path
    ghost const path: Path
    ghost const index: nat   // the position it was loaded to

    /** The item's fields, and its path, as a value. */
    ghost function View(): Item
      reads this
    {
      Item(path, level, directory, group, tombstone, size, modified)
    }

    /** The names from here up to the item without a parent spell the path. */
    ghost predicate Linked()
      decreases |path|
    {
      && path == (if parent == null then [] else parent.path) + name
      && (parent != null ==> name != [] && parent.Linked())
    }

    constructor (p: Entry, up: CacheItem?, ghost index: nat)
      requires up != null ==> p.path != [] && up.path == ParentOf(p.path) && up.Linked()
      ensures View() == Item(p.path, p.level, p.node.Dir?, up != null && up.group, up != null && up.tombstone,
                             SizeOf(p.node), p.node.stat.mtime)
      ensures Linked() && this.index == index
    {
      this.index := index;
      level := p.level;
      directory := p.node.Dir?;
      size := SizeOf(p.node);
      modified := p.node.stat.mtime;
      parent := up;
      path := p.path;
      if up != null {
        group := up.group;
        tombstone := up.tombstone;
        name := [p.path[|p.path| - 1]];
      } else {
        group := false;
        tombstone := false;
        name := p.path;
      }
    }

    method BuildPath() returns (res: Path)
      requires Linked()
      ensures res == path
    {
      res := name;
      var up := parent;
      while up != null
        invariant up != null ==> up.Linked()
        invariant path == (if up == null then [] else up.path) + res
        decreases if up == null then 0 else 1 + |up.path|
      {
        res := up.name + res;
        up := up.parent;
      }
    }

    /**
      Purges this item. For a directory, `listing` is the tree that the walk
      will find at its path, in the order of the directory entries.
    */
    method Purge(fs: FileSystem, listing: Option<Node>) returns (res: int)
      requires Linked()
      requires directory ==> (listing.Some? <==> path in fs.files)
      requires directory && listing.Some? ==> listing.value.Dir? && P.Mirrors(fs.files, listing.value, path)
      modifies fs
      ensures P.PurgeEffect(old(fs.files), fs.files, path, directory, tombstone)
      ensures res == if P.PurgeWorks(old(fs.files), path, directory, tombstone) then 0 else -1
    {
      res := 0;
      var path' := BuildPath();
      P.LoneEffect(fs.files, path, tombstone);
      if directory {
        if listing.Some? {
          res := PurgeTree(fs, path', listing.value);
        }
      } else if tombstone {
        var err := fs.Truncate(path');
        if err != 0 {
          res := -1;
        }
      } else {
        var err := fs.Unlink(path');
        if err != 0 {
          res := -1;
        }
      }
    }

    method PurgeTree(fs: FileSystem, path': Path, listing: Node) returns (res: int)
      requires directory && path' == path && listing.Dir? && P.Mirrors(fs.files, listing, path)
      modifies fs
      ensures P.PurgeEffect(old(fs.files), fs.files, path, true, tombstone)
      ensures res == if P.PurgeWorks(old(fs.files), path, true, tombstone) then 0 else -1
    {
      res := 0;
      var number: map<Path, bool> := map[];
      var fts := new Walk(listing, path');
      ghost var all, start := fts.work, P.Purging(fs.files, number, true);
      var p := fts.Read();
      while p.Some?
        invariant fresh(fts) && fts.started && !fts.skip
        invariant p == if fts.work == [] then None else Some(Report(fts.work[0]))
        invariant res == 0 || res == -1
        invariant Run(P.Step(tombstone), fts.work, P.Purging(fs.files, number, res == 0))
                  == Run(P.Step(tombstone), all, start)
        decreases Pending(fts.work)
      {
        number, res := PurgeEntry(fs, p.value, number, res);
        p := fts.Read();
      }
      P.PurgeTree(P.Job(old(fs.files), path, tombstone), listing);
    }

    /** The loop body of the purge: one entry of the walk. */
    method PurgeEntry(fs: FileSystem, e: Entry, number: map<Path, bool>, res: int)
      returns (number': map<Path, bool>, res': int)
      requires res == 0 || res == -1
      modifies fs
      ensures res' == 0 || res' == -1
      ensures P.Purging(fs.files, number', res' == 0)
              == P.StepPurge(tombstone, P.Purging(old(fs.files), number, res == 0), e)
    {
      number', res' := number, res;
      var err := 0;
      match e.info {
        case FTS_D =>
          if e.level == 0 {
            number' := number[e.path := tombstone];
          } else {
            var inherited := e.path != [] && P.NumberOf(number, ParentOf(e.path));
            number' := number[e.path := inherited || (e.node.Dir? && e.node.xattrs.tombstone)];
          }
        case FTS_F =>
          if e.path != [] && e.level > 0 && P.NumberOf(number, ParentOf(e.path)) {
            err := fs.Truncate(e.path);
          } else {
            err := fs.Unlink(e.path);
          }
        case FTS_SL => err := fs.Unlink(e.path);
        case FTS_DEFAULT => err := fs.Unlink(e.path);
        case FTS_DP => err := fs.Rmdir(e.path);
      }
      if err != 0 {
        res' := -1;
      }
    }
  }

  /** The comparator of `loadItems`, on the objects. */
  predicate ComesFirst(left: CacheItem, right: CacheItem)
    reads left, right
    ensures ComesFirst(left, right) == Comes(left.View(), right.View())
  {
    if left.modified != right.modified then left.modified > right.modified
    else if left.level != right.level then left.level < right.level
    else left.directory
  }

  ghost function Views(items: seq<CacheItem>): (views: seq<Item>)
    reads items
    ensures |views| == |items|
    ensures forall i :: 0 <= i < |items| ==> views[i] == items[i].View()
  {
    seq(|items|, i requires 0 <= i < |items| reads items => items[i].View())
  }

  /** Puts one item behind the last of the sorted ones that it does not come before. */
  method Insert(items: seq<CacheItem>, x: CacheItem) returns (r: seq<CacheItem>)
    ensures Views(r) == old(InsertItem(Views(items), x.View()))
    ensures multiset(r) == multiset(items) + multiset{x}
  {
    ghost var views, v := Views(items), x.View();
    var i := |items|;
    assert views[..i] == views;
    while i > 0 && ComesFirst(x, items[i - 1])
      invariant 0 <= i <= |items|
      invariant InsertItem(views, v) == InsertItem(views[..i], v) + views[i..]
    {
      i := i - 1;
      InsertStep(views, v, i);
    }
    InsertHere(views[..i], v);
    r := items[..i] + [x] + items[i..];
    ViewsInserted(items, x, i);
    InsertKeepsAll(items, x, i);
  }

  lemma InsertStep(views: seq<Item>, v: Item, i: nat)
    requires i < |views| && Comes(v, views[i])
    ensures InsertItem(views[..i + 1], v) + views[i + 1..] == InsertItem(views[..i], v) + views[i..]
  {
    assert views[..i + 1][..i] == views[..i];
    assert [views[i]] + views[i + 1..] == views[i..];
  }

  lemma InsertHere(views: seq<Item>, v: Item)
    requires views == [] || !Comes(v, views[|views| - 1])
    ensures InsertItem(views, v) == views + [v]
  {
  }

  lemma ViewsInserted(items: seq<CacheItem>, x: CacheItem, i: nat)
    requires i <= |items|
    ensures Views(items[..i] + [x] + items[i..]) == Views(items)[..i] + [x.View()] + Views(items)[i..]
  {
  }

  lemma InsertKeepsAll<T>(items: seq<T>, x: T, i: nat)
    requires i <= |items|
    ensures multiset(items[..i] + [x] + items[i..]) == multiset(items) + multiset{x}
  {
    assert items == items[..i] + items[i..];
  }

  /** Sorts by insertion. */
  method InsertAll(items: seq<CacheItem>, ghost views: seq<Item>) returns (sorted: seq<CacheItem>)
    requires views == Views(items)
    ensures multiset(sorted) == multiset(items)
    ensures Views(sorted) == InsertionSorted(views)
  {
    sorted := [];
    for n := 0 to |items|
      invariant multiset(sorted) == multiset(items[..n])
      invariant Views(sorted) == InsertionSorted(views[..n])
    {
      InsertNext(views, n);
      OneMoreItem(items, n);
      sorted := Insert(sorted, items[n]);
    }
    assert items[..|items|] == items && views[..|items|] == views;
  }

  lemma OneMoreItem<T>(items: seq<T>, n: nat)
    requires n < |items|
    ensures multiset(items[..n + 1]) == multiset(items[..n]) + multiset{items[n]}
  {
    assert items[..n + 1] == items[..n] + [items[n]];
  }

  lemma InsertNext(views: seq<Item>, n: nat)
    requires n < |views|
    ensures InsertionSorted(views[..n + 1]) == InsertItem(InsertionSorted(views[..n]), views[n])
  {
    assert views[..n + 1][..n] == views[..n];
  }

  /** Merges two lists, the left one first where the comparator does not object. */
  method MergeItems(left: seq<CacheItem>, right: seq<CacheItem>) returns (r: seq<CacheItem>)
    ensures multiset(r) == multiset(left) + multiset(right)
    ensures Views(r) == old(Merged(Views(left), Views(right)))
    decreases |left| + |right|
  {
    if left == [] {
      r := right;
    } else if right == [] {
      r := left;
    } else if ComesFirst(right[0], left[0]) {
      ViewsFirst(right);
      MergedFirst(Views(left), Views(right));
      var rest := MergeItems(left, right[1..]);
      ViewsAfter(right[0], rest);
      Shuffle(multiset{right[0]}, multiset(left), multiset(right[1..]));
      r := [right[0]] + rest;
    } else {
      ViewsFirst(left);
      MergedFirst(Views(left), Views(right));
      var rest := MergeItems(left[1..], right);
      ViewsAfter(left[0], rest);
      r := [left[0]] + rest;
    }
  }

  lemma Shuffle<T>(a: multiset<T>, b: multiset<T>, c: multiset<T>)
    ensures a + (b + c) == b + (a + c)
  {
  }

  lemma MergedFirst(left: seq<Item>, right: seq<Item>)
    requires left != [] && right != []
    ensures Merged(left, right)
            == if Comes(right[0], left[0]) then [right[0]] + Merged(left, right[1..])
               else [left[0]] + Merged(left[1..], right)
  {
  }

  lemma ViewsFirst(items: seq<CacheItem>)
    requires items != []
    ensures Views(items)[0] == items[0].View() && Views(items)[1..] == Views(items[1..])
    ensures multiset(items) == multiset{items[0]} + multiset(items[1..])
  {
    assert items == [items[0]] + items[1..];
  }

  lemma ViewsAfter(first: CacheItem, rest: seq<CacheItem>)
    ensures Views([first] + rest) == [first.View()] + Views(rest)
    ensures multiset([first] + rest) == multiset{first} + multiset(rest)
  {
  }

  lemma ViewsSplit(items: seq<CacheItem>, k: nat)
    requires k <= |items|
    ensures Views(items)[..k] == Views(items[..k]) && Views(items)[k..] == Views(items[k..])
  {
  }

  /** Sorts with the comparator of `loadItems`, as the library goes about it. */
  method SortItems(plan: Plan, items: seq<CacheItem>, ghost views: seq<Item>) returns (sorted: seq<CacheItem>)
    requires views == Views(items)
    ensures multiset(sorted) == multiset(items)
    ensures Views(sorted) == SortedItems(plan, views)
    decreases plan, 2
  {
    if plan.Insertion? {
      sorted := InsertAll(items, views);
    } else {
      sorted := SortHalves(plan, items, views);
    }
  }

  method SortHalves(plan: Plan, items: seq<CacheItem>, ghost views: seq<Item>) returns (sorted: seq<CacheItem>)
    requires plan.Halves? && views == Views(items)
    ensures multiset(sorted) == multiset(items)
    ensures Views(sorted) == SortedItems(plan, views)
    decreases plan, 1
  {
    var k := Split(plan, |items|);
    ViewsSplit(items, k);
    var first := SortItems(plan.left, items[..k], views[..k]);
    sorted := SortRest(plan, items[k..], views[k..], first, SortedItems(plan.left, views[..k]));
    HalvesKeepAll(items, k, first, items[k..], sorted);
  }

  /** Sorts the second half and merges the first one with it. */
  method SortRest(plan: Plan, rest: seq<CacheItem>, ghost views: seq<Item>,
                  first: seq<CacheItem>, ghost left: seq<Item>) returns (sorted: seq<CacheItem>)
    requires plan.Halves? && views == Views(rest) && left == Views(first)
    ensures multiset(sorted) == multiset(first) + multiset(rest)
    ensures Views(sorted) == Merged(left, SortedItems(plan.right, views))
    decreases plan, 0
  {
    var second := SortItems(plan.right, rest, views);
    sorted := MergeItems(first, second);
  }

  lemma HalvesKeepAll<T>(items: seq<T>, k: nat, first: seq<T>, second: seq<T>, sorted: seq<T>)
    requires k <= |items| && multiset(first) == multiset(items[..k]) && multiset(second) == multiset(items[k..])
    requires multiset(sorted) == multiset(first) + multiset(second)
    ensures multiset(sorted) == multiset(items)
  {
    assert items == items[..k] + items[k..];
  }

  // ----- Loading

  /** Will the walk still leave a directory at this level? */
  ghost predicate Awaits(work: seq<Work>, level: nat) {
    exists i :: 0 <= i < |work| && work[i].Leave? && work[i].level == level
  }

  lemma StillAwaits(work: seq<Work>, level: nat)
    requires Awaits(work, level)
    requires !(work[0].Leave? && work[0].level == level)
    ensures Awaits(Advance(work, false), level)
  {
    var i :| 0 <= i < |work| && work[i].Leave? && work[i].level == level;
    var rest := Advance(work, false);
    assert rest[|rest| - |work| + i] == work[i];
  }

  lemma EnteredAwaits(work: seq<Work>, p: Entry)
    requires work != [] && p == Report(work[0])
    ensures p.info == FTS_D ==> Awaits(Advance(work, false), p.level)
  {
    var w := work[0];
    if p.info == FTS_D {
      var inside := ChildWork(w.node.children, w.path, w.level, w.node.stat);
      assert Advance(work, false)[|inside|] == Leave(w.node, w.path, w.level, w.parent);
    }
  }

  /**
    The item objects and the entries' pointers stand for `st`. The objects of
    this walk, from position `first` on, are `mine`: only they may change.
  */
  ghost predicate Stands(items: seq<CacheItem>, pointer: map<Path, CacheItem>, first: nat, mine: set<CacheItem>,
                         st: LoadState)
    reads items
  {
    && first <= |items| == |st.items|
    && (forall i :: 0 <= i < |items| ==> StandsFor(items[i], i, first, mine, st.items[i]))
    && pointer.Keys == st.pointer.Keys
    && (forall q <- pointer.Keys ::
          st.pointer[q] < |items| && pointer[q] == items[st.pointer[q]] && pointer[q] in mine && pointer[q].path == q)
  }

  ghost predicate StandsFor(item: CacheItem, i: nat, first: nat, mine: set<CacheItem>, v: Item)
    reads item
  {
    item.index == i && (item in mine <==> i >= first) && item.Linked() && item.View() == v
  }

  /** Raises the parent's modification time to the item's, as the walk leaves an entry. */
  method Bubble(items: seq<CacheItem>, pointer: map<Path, CacheItem>, path: Path,
                ghost first: nat, ghost mine: set<CacheItem>, ghost st: Loading)
    requires Stands(items, pointer, first, mine, st)
    modifies mine
    ensures Stands(items, pointer, first, mine, BubbleUp(st, path))
  {
    if path in pointer && path != [] && ParentOf(path) in pointer {
      var item, up := pointer[path], pointer[ParentOf(path)];
      up.modified := Max(up.modified, item.modified);
      forall i | 0 <= i < |items| ensures StandsFor(items[i], i, first, mine, BubbleUp(st, path).items[i]) {
        assert old(StandsFor(items[i], i, first, mine, st.items[i]));
      }
    }
  }

  /** One entry inside a group directory. */
  method AbsorbEntry(p: Entry, items: seq<CacheItem>, pointer: map<Path, CacheItem>, item: CacheItem,
                     ghost first: nat, ghost mine: set<CacheItem>, ghost st: Loading)
    requires st.group.Some? && Stands(items, pointer, first, mine, st)
    requires item == items[st.group.value] && item in mine
    requires !(p.info == FTS_DP && p.level == item.level)
    modifies mine
    ensures StepItem(st, p).group == st.group && Stands(items, pointer, first, mine, StepItem(st, p))
  {
    if p.info != FTS_DP {
      item.size := item.size + SizeOf(p.node);
      item.modified := Max(item.modified, p.node.stat.mtime);
    }
  }

  /** Collects everything under a group directory into its item, up to the directory's FTS_DP report. */
  method CollectGroup(fts: Walk, items: seq<CacheItem>, pointer: map<Path, CacheItem>, item: CacheItem,
                      ghost first: nat, ghost mine: set<CacheItem>, ghost st: Loading)
    returns (p: Option<Entry>, ghost st': Loading)
    requires st.group.Some? && Stands(items, pointer, first, mine, st)
    requires item == items[st.group.value] && item in mine && Awaits(fts.Upcoming(), item.level)
    modifies fts, mine
    ensures fts.started && !fts.skip && fts.work != [] && Pending(fts.work) <= Pending(old(fts.Upcoming()))
    ensures p == Some(Report(fts.work[0])) && p.value.info == FTS_DP && p.value.level == item.level
    ensures st'.group == st.group && Stands(items, pointer, first, mine, st')
    ensures Run(Step(), fts.work, st') == Run(Step(), old(fts.Upcoming()), st)
  {
    ghost var all := fts.Upcoming();
    st' := st;
    p := fts.Read();
    while !(p.Some? && p.value.info == FTS_DP && p.value.level == item.level)
      invariant fts.started && !fts.skip && Awaits(fts.work, item.level)
      invariant p == if fts.work == [] then None else Some(Report(fts.work[0]))
      invariant Pending(fts.work) <= Pending(all)
      invariant st'.group == st.group && Stands(items, pointer, first, mine, st')
      invariant Run(Step(), fts.work, st') == Run(Step(), all, st)
      decreases Pending(fts.work)
    {
      StillAwaits(fts.work, item.level);
      AbsorbEntry(p.value, items, pointer, item, first, mine, st');
      st' := StepItem(st', p.value);
      p := fts.Read();
    }
  }

  /** Collects a group and raises its modification time to its parent's item. */
  method FinishGroup(fts: Walk, items: seq<CacheItem>, pointer: map<Path, CacheItem>, item: CacheItem,
                     ghost first: nat, ghost mine: set<CacheItem>, ghost st: Loading) returns (ghost st': Loading)
    requires st.group.Some? && Stands(items, pointer, first, mine, st)
    requires item == items[st.group.value] && item in mine && Awaits(fts.Upcoming(), item.level)
    modifies fts, mine
    ensures fts.started && !fts.skip && fts.work != [] && Pending(fts.work) <= Pending(old(fts.Upcoming()))
    ensures st'.group.None? && Stands(items, pointer, first, mine, st')
    ensures Run(Step(), Advance(fts.work, false), st') == Run(Step(), old(fts.Upcoming()), st)
  {
    var p;
    p, st' := CollectGroup(fts, items, pointer, item, first, mine, st);
    GroupEnds(fts.work, st', p.value);
    ghost var ended := Ungrouped(st');
    Bubble(items, pointer, p.value.path, first, mine, ended);
    st' := BubbleUp(ended, p.value.path);
  }

  ghost function Ungrouped(st: Loading): Loading {
    st.(group := None)
  }

  lemma GroupEnds(work: seq<Work>, st: Loading, p: Entry)
    requires work != [] && p == Report(work[0]) && p.info == FTS_DP
    requires st.group.Some? && p.level == st.items[st.group.value].level
    ensures Run(Step(), Advance(work, false), BubbleUp(Ungrouped(st), p.path)) == Run(Step(), work, st)
  {
    RunStep(Step(), work, st, StepItem(st, p), false);
  }

  /** Creates the item of an entry and marks it. */
  method NewCacheItem(items: seq<CacheItem>, pointer: map<Path, CacheItem>, p: Entry,
                      ghost first: nat, ghost mine: set<CacheItem>, ghost st: Loading) returns (item: CacheItem)
    requires st.group.None? && Stands(items, pointer, first, mine, st)
    ensures fresh(item)
    ensures Stands(items + [item], pointer[p.path := item], first, mine + {item}, Added(st, p))
  {
    var up := if p.path != [] && ParentOf(p.path) in pointer then pointer[ParentOf(p.path)] else null;
    item := new CacheItem(p, up, |items|);
    if p.node.Dir? {
      item.group := item.group || p.node.xattrs.group;
      item.tombstone := item.tombstone || p.node.xattrs.tombstone;
    }
    StandsMore(items, item, pointer, first, mine, st, NewItem(st, p));
  }

  lemma StandsMore(items: seq<CacheItem>, item: CacheItem, pointer: map<Path, CacheItem>,
                   first: nat, mine: set<CacheItem>, st: Loading, v: Item)
    requires Stands(items, pointer, first, mine, st) && item !in items && item !in mine
    requires item.index == |items| && item.Linked() && item.View() == v
    ensures Stands(items + [item], pointer[v.path := item], first, mine + {item},
                   LoadState(st.items + [v], st.pointer[v.path := |st.items|], None))
  {
    var items', mine', views' := items + [item], mine + {item}, st.items + [v];
    forall i | 0 <= i < |items'| ensures StandsFor(items'[i], i, first, mine', views'[i]) {
      if i < |items| {
        assert StandsFor(items[i], i, first, mine, st.items[i]) && items[i] in items;
      }
    }
  }

  /** The state with an entry's item added. */
  ghost function Added(st: Loading, p: Entry): Loading {
    LoadState(st.items + [NewItem(st, p)], st.pointer[p.path := |st.items|], None)
  }

  /** Its contents go to that item. */
  ghost function Grouping(st: Loading): Loading
    requires st.items != []
  {
    st.(group := Some(|st.items| - 1))
  }

  lemma EntryRun(work: seq<Work>, st: Loading, p: Entry)
    requires work != [] && p == Report(work[0])
    requires st.group.None? && p.level > 0 && p.info != FTS_DP
    ensures var added, group := Added(st, p), NewItem(st, p).group;
            Run<Loading>(Step(), work, st)
            == Run<Loading>(Step(), Advance(work, false),
                   if p.info != FTS_D then BubbleUp(added, p.path) else if group then Grouping(added) else added)
  {
    RunStep(Step(), work, st, StepItem(st, p), false);
  }

  /** The loop body for an entry below the root that is not being left; a group directory is read to its end. */
  method AddEntry(fts: Walk, p: Entry, items: seq<CacheItem>, pointer: map<Path, CacheItem>,
                  ghost first: nat, ghost mine: set<CacheItem>, ghost st: Loading)
    returns (item: CacheItem, ghost st': Loading)
    requires fts.started && !fts.skip && fts.work != [] && p == Report(fts.work[0]) && p.level > 0 && p.info != FTS_DP
    requires st.group.None? && Stands(items, pointer, first, mine, st)
    modifies fts, mine
    ensures fts.started && !fts.skip && fts.work != [] && Pending(fts.work) <= Pending(old(fts.work))
    ensures fresh(item) && st'.group.None?
    ensures Stands(items + [item], pointer[p.path := item], first, mine + {item}, st')
    ensures Run(Step(), Advance(fts.work, false), st') == Run(Step(), old(fts.work), st)
  {
    EntryRun(fts.work, st, p);
    EnteredAwaits(fts.work, p);
    item := NewCacheItem(items, pointer, p, first, mine, st);
    var items', pointer' := items + [item], pointer[p.path := item];
    ghost var mine' := mine + {item};
    assert StandsFor(items'[|items|], |items|, first, mine', NewItem(st, p));
    st' := Added(st, p);
    if p.info == FTS_D {
      if item.group {
        st' := FinishGroup(fts, items', pointer', item, first, mine', Grouping(st'));
      }
    } else {
      Bubble(items', pointer', p.path, first, mine', st');
      assert fts.started && !fts.skip && fts.work == old(fts.work);
      st' := BubbleUp(st', p.path);
    }
  }

  /** The loop body: the root is passed over, every other entry is added or left. */
  method LoadEntry(fts: Walk, p: Entry, items: seq<CacheItem>, pointer: map<Path, CacheItem>,
                   ghost first: nat, ghost mine: set<CacheItem>, ghost st: Loading)
    returns (items': seq<CacheItem>, pointer': map<Path, CacheItem>, ghost mine': set<CacheItem>, ghost st': Loading)
    requires fts.started && !fts.skip && fts.work != [] && p == Report(fts.work[0])
    requires st.group.None? && Stands(items, pointer, first, mine, st)
    modifies fts, mine
    ensures fts.started && !fts.skip && fts.work != [] && Pending(fts.work) <= Pending(old(fts.work))
    ensures fresh(mine' - mine)
    ensures st'.group.None? && Stands(items', pointer', first, mine', st')
    ensures Run(Step(), Advance(fts.work, false), st') == Run(Step(), old(fts.work), st)
  {
    items', pointer', mine', st' := items, pointer, mine, st;
    if p.level > 0 {
      if p.info == FTS_DP {
        Bubble(items, pointer, p.path, first, mine, st);
        st' := BubbleUp(st, p.path);
      } else {
        var item;
        item, st' := AddEntry(fts, p, items, pointer, first, mine, st);
        items', pointer', mine' := items + [item], pointer[p.path := item], mine + {item};
      }
    }
  }

  /** The loading loop over the walk of a tree. */
  method LoadWalk(items: seq<CacheItem>, tree: Node, path: Path, ghost views: seq<Item>)
    returns (items': seq<CacheItem>)
    requires forall i :: 0 <= i < |items| ==> items[i].Linked() && items[i].index == i
    requires views == Views(items)
    ensures forall i :: 0 <= i < |items'| ==> items'[i].Linked() && items'[i].index == i
    ensures Views(items') == views + LoadTree(tree, path)
  {
    items' := items;
    var pointer: map<Path, CacheItem> := map[];
    ghost var first, mine: set<CacheItem> := |items|, {};
    ghost var start: Loading := LoadState(views, map[], None);
    ghost var st := start;
    var fts := new Walk(tree, path);
    ghost var all := fts.work;
    var p := fts.Read();
    while p.Some?
      invariant fresh(fts) && fresh(mine) && fts.started && !fts.skip
      invariant p == if fts.work == [] then None else Some(Report(fts.work[0]))
      invariant st.group.None? && Stands(items', pointer, first, mine, st)
      invariant Run(Step(), fts.work, st) == Run(Step(), all, start)
      decreases Pending(fts.work)
    {
      items', pointer, mine, st := LoadEntry(fts, p.value, items', pointer, first, mine, st);
      p := fts.Read();
    }
    WalkIsLoad(tree, path, views);
    assert Views(items') == st.items;
  }

  /**
    What trackers ask of the file system and the quota service: the tree found at
    a path when the call begins and the modification times of what is changed
    later, the cache directories of a data path, the two cache GIDs of a UID (-1
    for none) and the space of a GID; and how the library sorts lists of a length.
  */
  datatype Device = Device(
    tree: Path -> Option<Node>,
    touched: Clock,
    cache: Path -> Path,
    codeCache: Path -> Path,
    quotaSupported: bool,
    cacheGid: int -> int,
    extCacheGid: int -> int,
    space: int -> int,
    plan: nat -> Plan)

  /** The device as it is found later in the call, when the file system is `now`. */
  function Seen(device: Device, start: P.Files, now: P.Files): Device {
    device.(tree := p => if device.tree(p).Some? && p in now
                         then Some(Pruned(device.tree(p).value, p, start, now, device.touched)) else None)
  }

  /** The places a tracker loads items from; a tree that cannot be opened gives none. */
  function PlaceOf(device: Device, path: Path): seq<Place> {
    if device.tree(path).Some? then [(device.tree(path).value, path)] else []
  }

  function PlacesAt(device: Device, dataPath: Path): seq<Place> {
    PlaceOf(device, device.cache(dataPath)) + PlaceOf(device, device.codeCache(dataPath))
  }

  function Places(device: Device, dataPaths: seq<Path>): seq<Place> {
    if dataPaths == [] then []
    else Places(device, dataPaths[..|dataPaths| - 1]) + PlacesAt(device, dataPaths[|dataPaths| - 1])
  }

  /** The items of a tracker with these data paths, in purge order from the back. */
  ghost function LoadedItems(device: Device, dataPaths: seq<Path>): seq<Item> {
    var items := LoadPlaces(Places(device, dataPaths));
    SortedItems(device.plan(|items|), items)
  }

  lemma LoadedArranges(device: Device, dataPaths: seq<Path>)
    ensures Arranges(LoadPlaces(Places(device, dataPaths)), LoadedItems(device, dataPaths))
  {
    var items := LoadPlaces(Places(device, dataPaths));
    SortingArranges(device.plan(|items|), items);
  }

  lemma SameLength(device: Device, dataPaths: seq<Path>)
    ensures |LoadedItems(device, dataPaths)| == |LoadPlaces(Places(device, dataPaths))|
  {
    LoadedArranges(device, dataPaths);
    SameSize(LoadPlaces(Places(device, dataPaths)), LoadedItems(device, dataPaths));
  }

  lemma SameSize<T>(a: seq<T>, b: seq<T>)
    requires multiset(a) == multiset(b)
    ensures |a| == |b|
  {
    assert |multiset(a)| == |a| && |multiset(b)| == |b|;
  }

  lemma {:induction false} SeenHasFewer(device: Device, start: P.Files, now: P.Files, dataPaths: seq<Path>)
    ensures |LoadPlaces(Places(Seen(device, start, now), dataPaths))| <= |LoadPlaces(Places(device, dataPaths))|
  {
    if dataPaths != [] {
      var seen, last := Seen(device, start, now), |dataPaths| - 1;
      SeenHasFewer(device, start, now, dataPaths[..last]);
      PlacesLast(seen, dataPaths);
      PlacesLast(device, dataPaths);
      SeenHasFewerAt(device, start, now, device.cache(dataPaths[last]));
      SeenHasFewerAt(device, start, now, device.codeCache(dataPaths[last]));
    }
  }

  lemma PlacesLast(device: Device, dataPaths: seq<Path>)
    requires dataPaths != []
    ensures var last := |dataPaths| - 1;
            |LoadPlaces(Places(device, dataPaths))|
            == |LoadPlaces(Places(device, dataPaths[..last]))|
               + |LoadPlaces(PlaceOf(device, device.cache(dataPaths[last])))|
               + |LoadPlaces(PlaceOf(device, device.codeCache(dataPaths[last])))|
  {
    var last := |dataPaths| - 1;
    LoadPlacesSplit(Places(device, dataPaths[..last]), PlacesAt(device, dataPaths[last]));
    LoadPlacesSplit(PlaceOf(device, device.cache(dataPaths[last])), PlaceOf(device, device.codeCache(dataPaths[last])));
  }

  lemma SeenHasFewerAt(device: Device, start: P.Files, now: P.Files, path: Path)
    ensures |LoadPlaces(PlaceOf(Seen(device, start, now), path))| <= |LoadPlaces(PlaceOf(device, path))|
  {
    LoadOnePlace(device, path);
    LoadOnePlace(Seen(device, start, now), path);
    if device.tree(path).Some? && device.tree(path).value.Dir? {
      FewerItemsInAll(device.tree(path).value.children, path, 0, false, start, now, device.touched);
    }
  }

  /** Loading later finds no more items than loading at the start of the call would have. */
  lemma SeenLoadsFewer(device: Device, start: P.Files, now: P.Files, dataPaths: seq<Path>)
    ensures |LoadedItems(Seen(device, start, now), dataPaths)| <= |LoadedItems(device, dataPaths)|
  {
    SameLength(device, dataPaths);
    SameLength(Seen(device, start, now), dataPaths);
    SeenHasFewer(device, start, now, dataPaths);
  }

  lemma PlacesNext(device: Device, dataPaths: seq<Path>, n: nat)
    requires n < |dataPaths|
    ensures LoadPlaces(Places(device, dataPaths[..n + 1]))
            == LoadPlaces(Places(device, dataPaths[..n])) + LoadPlaces(PlacesAt(device, dataPaths[n]))
  {
    assert dataPaths[..n + 1][..n] == dataPaths[..n];
    LoadPlacesSplit(Places(device, dataPaths[..n]), PlacesAt(device, dataPaths[n]));
  }

  lemma {:induction false} LoadPlacesSplit(a: seq<Place>, b: seq<Place>)
    ensures LoadPlaces(a + b) == LoadPlaces(a) + LoadPlaces(b)
  {
    if a == [] {
      assert a + b == b;
    } else {
      LoadPlacesSplit(a[1..], b);
      assert (a + b)[0] == a[0] && (a + b)[1..] == a[1..] + b;
      Regroup(LoadTree(a[0].0, a[0].1), LoadPlaces(a[1..]), LoadPlaces(b));
    }
  }

  class CacheTracker {
    const uid: int
    var cacheUsed: int
    var cacheQuota: int
    var items: seq<CacheItem>
    var dataPaths: seq<Path>
    var itemsLoaded: bool

    constructor (uid: int)
      ensures this.uid == uid && cacheUsed == 0 && cacheQuota == 0 && items == [] && dataPaths == [] && !itemsLoaded
    {
      this.uid := uid;
      cacheUsed, cacheQuota, items, dataPaths, itemsLoaded := 0, 0, [], [], false;
    }

    method AddDataPath(path: Path)
      modifies this`dataPaths
      ensures dataPaths == old(dataPaths) + [path]
    {
      dataPaths := dataPaths + [path];
    }

    /** The objects are linked up to their paths and know their positions. */
    ghost predicate Loaded()
      reads this
    {
      forall i :: 0 <= i < |items| ==> items[i].Linked() && items[i].index == i
    }

    /** Appends the items of the tree at `path`. */
    method LoadItemsFrom(tree: Option<Node>, path: Path)
      requires Loaded()
      modifies this`items
      ensures Loaded()
      ensures Views(items) == old(Views(items)) + (if tree.Some? then LoadTree(tree.value, path) else [])
    {
      if tree.None? {
        assert Views(items) + [] == Views(items);
        return;
      }
      ghost var before := Views(items);
      items := LoadWalk(items, tree.value, path, before);
    }

    /** Appends the items of one data path: its cache and its code cache. */
    method LoadDataPath(device: Device, path: Path)
      requires Loaded()
      modifies this`items
      ensures Loaded()
      ensures Views(items) == old(Views(items)) + LoadPlaces(PlacesAt(device, path))
    {
      var cache, codeCache := device.cache(path), device.codeCache(path);
      ghost var before := Views(items);
      LoadItemsFrom(device.tree(cache), cache);
      LoadItemsFrom(device.tree(codeCache), codeCache);
      LoadOnePlace(device, cache);
      LoadOnePlace(device, codeCache);
      LoadPlacesSplit(PlaceOf(device, cache), PlaceOf(device, codeCache));
      Regroup(before, LoadPlaces(PlaceOf(device, cache)), LoadPlaces(PlaceOf(device, codeCache)));
    }

    /** Loads the items of all data paths and sorts them for purging from the back. */
    method LoadItems(device: Device)
      modifies this`items
      ensures Views(items) == LoadedItems(device, dataPaths)
      ensures forall item <- items :: item.Linked()
    {
      items := [];
      for n := 0 to |dataPaths|
        invariant Loaded()
        invariant Views(items) == LoadPlaces(Places(device, dataPaths[..n]))
      {
        LoadDataPath(device, dataPaths[n]);
        PlacesNext(device, dataPaths, n);
      }
      assert dataPaths[..|dataPaths|] == dataPaths;
      ghost var loaded := items;
      assert |Views(items)| == |items|;
      items := SortItems(device.plan(|items|), items, Views(items));
      forall item <- items ensures item.Linked() {
        assert item in multiset(items);
        assert item in loaded;
      }
    }

    method EnsureItems(device: Device)
      modifies this`items, this`itemsLoaded
      ensures itemsLoaded
      ensures old(itemsLoaded) ==> items == old(items)
      ensures !old(itemsLoaded) ==> Views(items) == LoadedItems(device, dataPaths)
      ensures !old(itemsLoaded) ==> forall item <- items :: item.Linked()
    {
      if !itemsLoaded {
        LoadItems(device);
        itemsLoaded := true;
      }
    }

    /** Adds the space of the UID's two cache groups, if both exist and the quota service knows it. */
    method LoadQuotaStats(device: Device) returns (ok: bool)
      modifies this`cacheUsed
      ensures ok <==> QuotaAnswers(device, uid)
      ensures ok ==> cacheUsed == old(cacheUsed) + QuotaUsed(device, uid)
      ensures ok <==>
                && device.quotaSupported && device.cacheGid(uid) != -1 && device.extCacheGid(uid) != -1
                && device.space(device.cacheGid(uid)) != -1 && device.space(device.extCacheGid(uid)) != -1
      ensures ok ==>
                cacheUsed == old(cacheUsed) + device.space(device.cacheGid(uid)) + device.space(device.extCacheGid(uid))
    {
      var cacheGid, extCacheGid := device.cacheGid(uid), device.extCacheGid(uid);
      if !(device.quotaSupported && cacheGid != -1 && extCacheGid != -1) {
        return false;
      }
      var space := device.space(cacheGid);
      if space == -1 {
        return false;
      }
      cacheUsed := cacheUsed + space;
      space := device.space(extCacheGid);
      if space == -1 {
        return false;
      }
      cacheUsed := cacheUsed + space;
      return true;
    }

    /** Measures the cache: by quota when possible, otherwise by walking the trees. */
    method LoadStats(device: Device)
      modifies this`cacheUsed
      ensures cacheUsed == StatsOf(device, uid, dataPaths)
    {
      cacheUsed := 0;
      var ok := LoadQuotaStats(device);
      if ok {
        return;
      }
      cacheUsed := 0;
      for n := 0 to |dataPaths|
        invariant cacheUsed == TreeStats(device, dataPaths[..n])
      {
        var cache, codeCache := device.tree(device.cache(dataPaths[n])), device.tree(device.codeCache(dataPaths[n]));
        var res, used := TreeSize.CalculateTreeSize(cache, cacheUsed, TreeSize.EVERYTHING, TreeSize.NoOwner());
        res, used := TreeSize.CalculateTreeSize(codeCache, used, TreeSize.EVERYTHING, TreeSize.NoOwner());
        cacheUsed := used;
        assert dataPaths[..n + 1][..n] == dataPaths[..n];
      }
      assert dataPaths[..|dataPaths|] == dataPaths;
    }

    method GetCacheRatio() returns (ratio: int)
      ensures ratio == Bounce.Ratio(cacheUsed, cacheQuota)
    {
      if cacheQuota == 0 {
        return 0;
      }
      return Bounce.Narrow(Bounce.TruncatingDiv(cacheUsed * 10000, cacheQuota));
    }
  }

  lemma LoadOnePlace(device: Device, path: Path)
    ensures LoadPlaces(PlaceOf(device, path))
            == if device.tree(path).Some? then LoadTree(device.tree(path).value, path) else []
  {
    if device.tree(path).Some? {
      assert LoadPlaces([(device.tree(path).value, path)][1..]) == [];
    }
  }

  /** The size of the cache trees, roots included. */
  function TreeStats(device: Device, dataPaths: seq<Path>): nat {
    if dataPaths == [] then 0
    else
      var path := dataPaths[|dataPaths| - 1];
      TreeStats(device, dataPaths[..|dataPaths| - 1])
      + UsedAt(device, device.cache(path)) + UsedAt(device, device.codeCache(path))
  }

  function UsedAt(device: Device, path: Path): nat {
    if device.tree(path).None? then 0 else UsedBy(device.tree(path).value)
  }

  /** Quotas are supported, both groups exist, and the service knows the space of both. */
  predicate QuotaAnswers(device: Device, uid: int) {
    && device.quotaSupported && device.cacheGid(uid) != -1 && device.extCacheGid(uid) != -1
    && device.space(device.cacheGid(uid)) != -1 && device.space(device.extCacheGid(uid)) != -1
  }

  function QuotaUsed(device: Device, uid: int): int {
    device.space(device.cacheGid(uid)) + device.space(device.extCacheGid(uid))
  }

  function StatsOf(device: Device, uid: int, dataPaths: seq<Path>): int {
    if QuotaAnswers(device, uid) then QuotaUsed(device, uid) else TreeStats(device, dataPaths)
  }
}
