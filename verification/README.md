# installd and dumpstate: a verified model

Dafny 4.11 proofs about Android's `installd` (freeing caches, measuring and
repairing data directories, compiling and moving artifacts) and about the
progress estimate of `dumpstate`. `dafny verify dfyconfig.toml` checks
everything.

## What is modelled

**Walks.** `Fts` models the file-tree walk of `fts_read` as the reports of a
work stack over a tree datatype, with `FTS_SKIP`. Every walker of the source is
a loop over it, and each loop is proved equal to a recursion on the tree.

**Freeing cache.** `FreeCache` is the service call: trackers are objects, the
priority queue is a binary heap (`TrackerQueues`), items are linked objects
loaded lazily by a walk (`CacheTrackers`). `Bounce` is the same loop as a state
machine over values; the methods are proved to be runs of it, and fairness,
conservation, the reserve and quota bounds, termination and the possible ends
are proved about all runs. `CacheItems` and `CacheCoverage` say what a walk
loads, `PurgeOrder` what the sort does with a comparator that is not a strict
order, `Purge`, `GroupPurge` and `PurgeSafety` what purging does to a file
system, one item at a time, as a group, and in the order of the loop. Items are
loaded when a tracker first becomes active: `SeenTrees` is what a walk finds
after other purges, and `CacheUse` compares it with what was measured at the
start. `CacheRuns` puts it together: what every purge of every run does on disk.
`OutsideFiles` says when files outside the cache directories are safe, and
`ChargedUse` when a tracker is charged for what is there.

A file system is a map from paths to entries. Symbolic links are followed, and
hard links are names with the same inode number, which share their contents.

**Other walks.** `TreeSize` (`calculate_tree_size`), `ExternalSize` (the manual
walk of `getExternalSize`, with the generated matcher in `MediaClasses`) and
`FixupGid` (`fixupAppData`).

**matchgen.** `MatchGen` is a compiler from an extension table over a trie to
nested switches, together with the meaning of the switches.

**Artifacts.** `AbNames` compares the names otapreopt writes with the names
installd looks for, `MoveAb` moves the files, `Dexopt` says on which files
dex2oat runs and tracks descriptors and outputs through every exit of `dexopt`,
`OtaParameters` reads ten versions of one command line, `ValidatePath` bounds
path depth.

**Progress.** `DumpstateProgress` keeps a rounded running average in a text file.

## What the proofs found

- The comparator of the item sort claims both orders for two directories of
  equal time and depth. It does no harm to a sort made of insertion and merging
  (`PurgeOrder.ComparatorFault`, `PurgeOrder.SortingArranges`).
- Purging truncates regular files in tombstoned directories, and what lone
  tombstoned links lead to. Truncating empties the inode, so a run of
  `freeCache` can empty a file outside the cache directories through a symbolic
  link or a hard link (`OutsideFiles.FileOutsideEmptied`);
  `OutsideFiles.OutsideIsSafe` says exactly when none does. For the same reason
  separate items can change more than one group item (`GroupPurge.LinkOutExample`).
- A tracker is measured when the call begins, and its items are loaded later. A
  purge of another tracker can empty its files in between, so that it stays
  charged for space that is gone (`ChargedUse.ChargedForNothing`, exactly when:
  `ChargedUse.ChargedIsThere`).
- `getCacheRatio` narrows to an int and so misreads some trackers
  (`Bounce.OverflowMisreads`, exactly which: `Bounce.RatioMeetsQuota`). An
  overflow can stop the loop early, but only a negative use, which the quota
  service alone can bring about, lets it purge a tracker under its quota
  (`Bounce.QuotaSafety`, `CacheUse.WalkedQuotaSafety`). The quota bound is
  reached with equality (`Bounce.QuotaBoundIsReached`). The loop can stop with
  another tracker over its quota, but only right after a purge
  (`Bounce.QuotaStopAfterTake`, `Bounce.QuotaStopAfterSwap`).
- Filtering sizes by the group -1 does not split the total
  (`TreeSize.SwitchedOffGidCountsTwice`).
- A forced `fixupAppData` may find work that an unforced one left
  (`FixupGid.ForcedAfterUnforced`, exactly when: `FixupGid.SecondPassMakesNoCalls`).
- The trie of matchgen.py is six dicts deep: an extension of six characters is
  a type error in the generator (`MatchGen.LongExtensionFails`).
- A/B names agree for all slots except "dex" and those that start with "odex"
  (`AbNames.NamesMeet`), and `move_ab` can leave a new oat file beside an old
  vdex file in exactly one situation (`MoveAb.StaleVdex`).
- `validate_apk_path` recurses for ever for some path exactly when the data
  directory lies on adopted storage and has 14 characters or more
  (`ValidatePath.EndsExactlyWhen`).
- After 1000 runs the stored progress stats are never accepted again, because
  the number of runs is still counted up (`DumpstateProgress.AcceptedFor1000Runs`).

## Model

| member | source | states |
|---|---|---|
| `FreeCache.FreeCache` | installd/InstalldNativeService.cpp:1234-1401 | the result for every combination of free space, flags and walks that cannot be opened; with the V2 flag and all walks opened, the loop is a run of the machine from the measured trackers, the file system changes with it move by move, free space is measured exactly at the moves that look, the k-th of them seeing the k-th measurement, and the result is what the next measurement after those says; the run ends where enough was measured, every item is purged, no more cache than the reservation is left, or an undefied active tracker's ratio is below 10000; otherwise no file changes |
| `FreeCache.BounceLoop` | installd/InstalldNativeService.cpp:1328-1387 | the loop over tracker objects, a heap and a file system is, iteration by iteration, a run of the machine in which every purge purges its item's path, and it ends in one of these four ways |
| `CacheRuns.EveryPurge` | installd/InstalldNativeService.cpp:1364-1370 | in every run with any number of trackers the purged item is still there; a directory is removed without an error exactly when it held no regular file in a tombstoned directory; a regular file is removed or emptied without an error; without tombstones no purge fails and a directory that is not a group is already empty |
| `CacheRuns.EnoughOrEmpty` | installd/InstalldNativeService.cpp:1329-1400 | every run, with or without DEFY_QUOTA and a reservation, ends with enough space measured, with every cache directory without tombstones, of every tracker, empty on disk, with no more cache left than the reservation, or with an undefied active tracker whose ratio is below 10000 |
| `CacheRuns.NothingLeftBelow` | installd/InstalldNativeService.cpp:1359-1362 | once a tracker has no items left, its cache directories without tombstones are empty on disk |
| `CacheRuns.OnlyCachesChange` | installd/CacheItem.cpp:69-133 | outside the cache directories of its trackers a run changes exactly this, at every point of it: a regular file is emptied when a purge so far truncated its inode, through a link or under another name |
| `OutsideFiles.OutsideIsSafe` | installd/CacheItem.cpp:69-133 | for every path outside the cache directories: every run, whatever the modification times, the quotas and the library's sort, leaves it as it was at every point, exactly unless it is a regular file with contents that shares its inode with a regular file in a tombstoned directory of a cache, in a group or not, or with a file that a lone tombstoned link there leads to |
| `OutsideFiles.FileOutsideEmptied` | installd/CacheItem.cpp:119-131 | a concrete device, file system and run of freeCache that empties a file outside its cache directories, through a symbolic link and just so through a hard link |
| `OutsideFiles.OutsideEmptied` | installd/CacheItem.cpp:69-133 | for every regular file outside whose inode is so exposed, with all caches as they are, a run of two moves that empties it |
| `OutsideFiles.ItemRun` | installd/InstalldNativeService.cpp:1328-1370 | for every item that is purged as a whole, a group or a lone one, of any tracker, a run from the same caches that purges it first, before any other tracker has loaded its items |
| `ChargedUse.ChargedIsThere` | installd/InstalldNativeService.cpp:1310-1370 | a tracker measured by walking is charged for what is there, in every run and at every point of it, whatever the modification times, the quotas and the library's sort, exactly when no file with contents that it is charged for shares its inode with a regular file in a tombstoned directory of another tracker's cache, or with a file that a lone tombstoned link there leads to |
| `ChargedUse.ChargeStaysWrong` | installd/CacheTracker.cpp:191-198 | once a tracker is charged for too much it stays so; loading its items does not correct it |
| `ChargedUse.ChargedForNothing` | installd/InstalldNativeService.cpp:1319-1370 | a concrete run of two trackers after which the second one is charged for blocks that are gone, through a symbolic link and just so through a hard link |
| `Purge.TargetDwindled` | installd/CacheItem.cpp:119-120 | while purging goes on a link may stop leading anywhere, but it never comes to lead to another file |
| `CacheRuns.SpotSees` | installd/InstalldNativeService.cpp:1328-1387 | seen from one cache directory, a run with all its trackers is a sequence of purges of that directory's own items |
| `CacheRuns.SpotOrder` | installd/InstalldNativeService.cpp:1364-1365 | and these purges take the directory's sorted items from the back, as far as its tracker has come |
| `FreeCache.NoopChangesNothing` | installd/InstalldNativeService.cpp:1368-1370 | with the noop flag a run changes no file |
| `FreeCache.PurgeAmong` | installd/InstalldNativeService.cpp:1364-1370 | purging an item changes the file system as the item's purge does, no tracker and not the queue |
| `Listing.ListTree` | installd/CacheItem.cpp:76-80 | what opening a directory finds: a tree that mirrors the file system at and below it |
| `PurgeLocality.PurgeKeepsClosed` | installd/CacheItem.cpp:69-133 | a purge leaves every remaining entry in a directory |
| `PurgeLocality.PurgeInPart` | installd/CacheItem.cpp:69-133 | among the entries of the tree it happens in, a purge of the file system is the same purge of that tree |
| `FreeCache.Iterate` | installd/InstalldNativeService.cpp:1329-1387 | one iteration is one move of the machine exactly when none of the four endings holds, and it stops only where one of them does |
| `FreeCache.SwapMove` | installd/InstalldNativeService.cpp:1346-1357 | pushing the active tracker back and taking the top makes a tracker with the largest ratio active; if its items were not loaded before, they are those of the trees as they are at that moment |
| `FreeCache.PurgeOne` | installd/InstalldNativeService.cpp:1364-1386 | the last item leaves the active tracker, its size moves from used to cleared, and free space is measured again, once and with the next measurement, exactly when enough seems freed |
| `FreeCache.CreateTrackers` | installd/InstalldNativeService.cpp:1263-1308 | over all users, one tracker per owner of a data directory, with that owner's paths in the order found and the quota or its default; it fails exactly when the walk over some user's directories cannot be opened |
| `FreeCache.GroupedByOwner` | installd/InstalldNativeService.cpp:1277-1305 | every owner's data paths are exactly the paths of that owner's directories, in order |
| `FreeCache.WalkFindsDirs` | installd/InstalldNativeService.cpp:1277-1305 | skipping at depth one finds every directory at depth one and nothing else |
| `FreeCache.Populate` | installd/InstalldNativeService.cpp:1310-1323 | every tracker is measured and queued once, and the total is the sum of what all of them use |
| `CacheUse.ItemsShrinkFromBack` | installd/InstalldNativeService.cpp:1355-1373 | at every point of every run a tracker has a prefix left of the sorted items it loaded, and has used exactly that much less |
| `CacheUse.RunIsAncestorClosed` | installd/InstalldNativeService.cpp:1364-1370 | at every point of every run the remaining items of a tracker are closed under ancestors |
| `CacheUse.UseIsItemsAndRoots` | installd/InstalldNativeService.cpp:1319-1373 | for a tracker that the quota service has no answer for, at every point of every run: once its items are loaded, the used size is never less than the size of the items still there plus the blocks of the cache directories themselves, and exactly that when and only when nothing it was charged for was lost before loading; until then it is what was measured |
| `SeenTrees.MirrorsPruned` | installd/CacheTracker.cpp:98-163 | while entries disappear, the tree that a later walk finds still mirrors the file system |
| `SeenTrees.LessUse` | installd/CacheTracker.cpp:62-73 | a later walk finds at most the space that was found at first, and exactly as much when and only when no blocks were emptied or removed |
| `Bounce.Fairness` | installd/InstalldNativeService.cpp:1313-1374 | each purged item comes from a tracker whose ratio is the largest among all trackers that still have items |
| `Bounce.Conservation` | installd/InstalldNativeService.cpp:1318-1322 | at every point of every run cleared plus the sum of all used sizes is the initial total |
| `Bounce.ReserveBound` | installd/InstalldNativeService.cpp:1338-1342 | with a positive reservation the cache that remains exceeds the reservation minus the size of the last purged item |
| `Bounce.QuotaSafety` | installd/InstalldNativeService.cpp:1330-1336 | without DEFY_QUOTA every purge is from a tracker whose ratio reaches 10000; unless its use is negative it is at or over its quota, so it never ends further below its quota than the size of its last purged item |
| `CacheUse.WalkedQuotaSafety` | installd/InstalldNativeService.cpp:1330-1336 | the same without any condition for every tracker that was measured by walking its trees |
| `Bounce.QuotaBoundIsReached` | installd/InstalldNativeService.cpp:1330-1336 | the quota bound is exact: a run that purges a tracker exactly at its quota and leaves it below by the whole item |
| `Bounce.QuotaStopAfterSwap` | installd/InstalldNativeService.cpp:1330-1336 | a run that stops because the active tracker is under its quota ends with a swap or a purge; after a swap no tracker that can still be purged has a ratio of 10000 or more |
| `Bounce.QuotaStopAfterTake` | installd/InstalldNativeService.cpp:1330-1336 | after a purge another tracker can still be over its quota: a run for every purged size of up to 1000 bytes |
| `Bounce.RunsAreShort` | installd/InstalldNativeService.cpp:1328-1387 | no run has more iterations than twice the number of items and trackers, plus one |
| `Bounce.SpendsAt` | installd/InstalldNativeService.cpp:1328-1387 | every iteration spends from a budget of items left, trackers in play and a pending swap |
| `Bounce.RunEnds` | installd/InstalldNativeService.cpp:1330-1387 | a finished run that needed space measured enough with its last move, or every item of every tracker is purged, or what all trackers use is at most a positive reservation, or, without DEFY_QUOTA, the active tracker's ratio is below 10000 |
| `Bounce.EndsExactly` | installd/InstalldNativeService.cpp:1329-1348 | at every position of every run the loop stops exactly when one of these holds, and it goes on only when none does |
| `Bounce.RatioMeetsQuota` | installd/CacheTracker.cpp:200-206 | for every use and every positive quota, exactly when the ratio says whether the quota is used up: a natural use is read correctly when it is below the quota or the low 32 bits of the quotient reach 10000 as an int, a negative one when they do not |
| `Bounce.FittingRatio` | installd/CacheTracker.cpp:200-206 | for every use whose quotient fits an int the ratio reaches 10000 exactly when the use reaches the quota |
| `Bounce.OverMeansUsedUp` | installd/CacheTracker.cpp:200-206 | an overflow can hide a use over the quota, but a ratio of at least 10000 with a natural use means that the quota is used up |
| `Bounce.OverflowMisreads` | installd/CacheTracker.cpp:200-206 | both misreadings happen: a use far over its quota whose ratio is negative, and a negative use whose ratio reaches 10000 |
| `TrackerQueues.TrackerQueue.Push` | installd/InstalldNativeService.cpp:1316-1320 | adds one tracker and keeps the heap ordered by ratio |
| `TrackerQueues.TrackerQueue.Top` | installd/InstalldNativeService.cpp:1346-1347 | a tracker whose ratio no queued tracker exceeds |
| `TrackerQueues.TrackerQueue.Pop` | installd/InstalldNativeService.cpp:1354 | removes exactly a tracker with the largest ratio and keeps the heap ordered |
| `TrackerQueues.RootIsTop` | installd/InstalldNativeService.cpp:1313-1317 | in an ordered heap the first element has the largest key |
| `CacheTrackers.CacheItem.constructor` | installd/CacheItem.cpp:33-50 | the fields of an entry's item; group and tombstone are inherited from the parent item |
| `CacheTrackers.CacheItem.BuildPath` | installd/CacheItem.cpp:59-67 | following the parents gives back the path the item was made for |
| `CacheTrackers.CacheItem.Purge` | installd/CacheItem.cpp:69-133 | the file system afterwards, path by path: what is removed, and that truncating empties an inode under all its names, links being followed; and that 0 is returned exactly when every system call succeeded |
| `CacheTrackers.SortItems` | installd/CacheTracker.cpp:175-188 | the objects sorted with the source's comparator, by any mix of insertion and merging, are the items the specification sorts to |
| `CacheTrackers.LoadWalk` | installd/CacheTracker.cpp:98-163 | the walk over objects appends the items of the tree, as the recursion on the tree gives them |
| `CacheTrackers.CacheTracker.LoadItemsFrom` | installd/CacheTracker.cpp:98-163 | appends the items of one tree, or nothing when it cannot be opened |
| `CacheTrackers.CacheTracker.LoadItems` | installd/CacheTracker.cpp:165-189 | the items are those of all cache and code_cache directories of the data paths, sorted |
| `CacheTrackers.CacheTracker.EnsureItems` | installd/CacheTracker.cpp:191-198 | items are loaded once and kept afterwards |
| `CacheTrackers.CacheTracker.LoadStats` | installd/CacheTracker.cpp:57-74 | used is what the quota service says for both groups, or the size of the trees when it cannot say |
| `CacheTrackers.CacheTracker.LoadQuotaStats` | installd/CacheTracker.cpp:76-96 | succeeds exactly when quotas are supported, both groups exist and both are answered |
| `CacheItems.WalkIsLoad` | installd/CacheTracker.cpp:98-163 | the whole loading walk, with its inner loop over groups and its bubbling of times, gives the items of the recursion on the tree |
| `CacheItems.VisitNode` | installd/CacheTracker.cpp:109-160 | walking any node outside a group adds its items, raises the parent's time to the subtree's newest, and leaves all other entries alone |
| `CacheItems.CollectNode` | installd/CacheTracker.cpp:128-142 | inside a group every node adds its size and time to the group's item |
| `CacheCoverage.ExactCoverage` | installd/CacheTracker.cpp:109-144 | every node below the root belongs to exactly one item, its own or its outermost group's; the root to none |
| `CacheCoverage.ModifiedIsNewest` | installd/CacheTracker.cpp:146-160 | each item's time is the largest modification time in its subtree |
| `CacheCoverage.SizesAddUp` | installd/CacheTracker.cpp:138 | the item sizes add up to the tree size minus the root's own blocks |
| `PurgeOrder.ComparatorFault` | installd/CacheTracker.cpp:176-186 | the comparator differs from the intended order exactly on two directories of equal time and depth, where it claims both directions |
| `PurgeOrder.SortingArranges` | installd/CacheTracker.cpp:187 | however a library mixes insertion sort and merging, sorting with that comparator yields a permutation that is sorted in the intended order |
| `PurgeOrder.PlacesAreBubbled` | installd/CacheTracker.cpp:146-160 | in the loaded items no item is newer than an item of one of its ancestors |
| `PurgeOrder.ParentsSortFirst` | installd/CacheTracker.cpp:175-187 | in the sorted items every ancestor comes before its descendants |
| `PurgeOrder.RemainingIsAncestorClosed` | installd/InstalldNativeService.cpp:1364-1365 | popping from the back leaves an ancestor-closed set, and the next item has nothing left below it |
| `Purge.PurgeTree` | installd/CacheItem.cpp:80-118 | the walk over a directory item removes exactly what does not contain a regular file in a tombstoned directory, empties the inodes of those files under all their names, changes nothing else, and succeeds exactly when the directory contains none |
| `GroupPurge.AfterPurges` | installd/CacheItem.cpp:69-133 | after any purges in any order the entries that are there depend only on which nodes were covered, and contents on these and on the inodes that lone tombstoned items emptied |
| `GroupPurge.SameCoverSameEnd` | installd/CacheItem.cpp:69-133 | two sequences of purges that cover the same nodes leave the same entries; they end in the same file system exactly when they emptied the same files elsewhere, and always when no tombstoned link among the nodes leads to a file with contents elsewhere, other than one of an inode that both empty anyway |
| `GroupPurge.GroupIsEveryNode` | installd/CacheItem.cpp:69-133 | one purge of a group ends in the same file system as purging every node of its subtree as an item of its own, for every order, exactly when no tombstoned link inside leads to a file with contents outside the group, other than one that shares its inode with a file the group truncates |
| `GroupPurge.LinkOutExample` | installd/CacheItem.cpp:104-131 | a concrete group for which the two ends differ |
| `PurgeSafety.TreeIsMarked` | installd/CacheTracker.cpp:124-126 | the tombstone field every item inherits is that of the directories above it in the file system |
| `PurgeSafety.PopsWork` | installd/CacheItem.cpp:69-133 | when items are popped from the back every item is still there, a directory's purge succeeds exactly when it contains no file to keep, and a lone item's when it is a regular file or not tombstoned |
| `PurgeSafety.EmptyAtRmdir` | installd/CacheItem.cpp:111-116 | without tombstones a directory holds nothing when its own rmdir runs |
| `PurgeSafety.PopsEmptyTheTree` | installd/InstalldNativeService.cpp:1364-1370 | without tombstones no purge of the whole sequence fails and nothing is left below the root |
| `TreeSize.CalculateTreeSize` | installd/utils.cpp:379-430 | adds the size of the filtered tree, or returns -1 and changes nothing when the tree cannot be opened |
| `TreeSize.SizeIsSum` | installd/utils.cpp:391-418 | the filtered size is the sum over the entries outside left-out app trees whose group is the included one, if there is one, and is not the excluded one |
| `TreeSize.GidFiltersPartition` | installd/utils.cpp:391-418 | including and excluding a group split the unfiltered total for every tree, with or without exclude_apps, exactly when the group is not -1 or there is nothing to count |
| `TreeSize.SwitchedOffGidCountsTwice` | installd/utils.cpp:409-414 | the concrete exception for the group -1 |
| `ExternalSize.MeasureExternal` | installd/InstalldNativeService.cpp:1958-1991 | the loop's five counters are the recursive measure of the tree |
| `ExternalSize.Extension` | installd/InstalldNativeService.cpp:1965-1973 | what strrchr finds: the text after the last dot, if there is one |
| `ExternalSize.ExternalSizes` | installd/InstalldNativeService.cpp:1961-1990 | the app size is what lies strictly below top-level Android directories, the total is the tree size, and audio, video, image and app are parts of it that do not overlap |
| `ExternalSize.MediaSizes` | installd/InstalldNativeService.cpp:1963-1974 | each media size is that of the regular files outside the top-level Android directories whose text after the last dot has that class |
| `MediaClasses.MeasuredByTable` | installd/InstalldNativeService.cpp:1963-1974 | for every table of NUL-free extensions of at most five characters the generator succeeds, and measuring with its function gives each media size: that of the regular files outside the top-level Android directories whose text after the last dot equals, up to case, an entry of the table the last of which has that class |
| `FixupGid.FixupAppData` | installd/InstalldNativeService.cpp:726-811 | the calls issued for all users are exactly those of the recursion on their data directories, up to the first user whose walk cannot be opened, which is also exactly when the call fails |
| `FixupGid.WalkIsTreeFixes` | installd/InstalldNativeService.cpp:744-807 | numbering children at level 1 and inheriting numbers below gives every entry the expected group of its level-2 ancestor |
| `FixupGid.CallsFixTheTree` | installd/InstalldNativeService.cpp:783-800 | executing the issued calls turns the tree into the fixed tree |
| `FixupGid.CallsFixTheRoots` | installd/InstalldNativeService.cpp:783-800 | the calls issued for all directories together turn each of them into its fixed tree, when none lies in another |
| `FixupGid.EveryEntry` | installd/InstalldNativeService.cpp:762-806 | entry by entry, by rules about the tree alone: nothing changes above level 2; deeper, an entry whose group is its parent's uid or cache group, and which can be fixed, gets the package's cache group below an entry named cache or code_cache or with a recorded inode and the package's uid below any other, when the walk is forced or all entries on the way have a wrong group as well; nothing but groups changes |
| `FixupGid.EveryCall` | installd/InstalldNativeService.cpp:744-800 | the entries for which calls are issued are exactly these, each with that group, and with the setgid bit exactly for a directory that gets the cache group of its parent's uid |
| `FixupGid.SecondPassMakesNoCalls` | installd/InstalldNativeService.cpp:772-806 | for every tree a second walk issues no call exactly when the first one was forced, or the second one is not, or no entry that can be fixed and has the wrong group lies below a directory that the first one did not enter |
| `FixupGid.SecondCallMakesNoCalls` | installd/InstalldNativeService.cpp:726-811 | the same, exactly, for all data directories of all users together |
| `FixupGid.ForcedAfterUnforced` | installd/InstalldNativeService.cpp:776-778 | a concrete tree with such an entry: an unforced walk issues no call and a forced one does |
| `MatchGen.BuildTrie` | installd/matchgen.py:65-71 | the nested loops build the trie of all entries of the table, in table order, or fail where the first insertion fails |
| `MatchGen.PairsInOrder` | installd/matchgen.py:65-71 | every extension of every class is inserted with its class, at the place it has in the table, and nothing else is |
| `MatchGen.InsertWorks` | installd/matchgen.py:67-71 | an insertion succeeds exactly for extensions of at most five characters and changes the answer for that extension only |
| `MatchGen.TrieHoldsTable` | installd/matchgen.py:63-71 | the trie exists exactly when no extension is longer than five, and then holds for every string the class inserted last |
| `MatchGen.JumpToCase` | installd/matchgen.py:75-85 | a switch jumps to the case of the lower-cased character when the dict has it, and to its end otherwise |
| `MatchGen.SwitchAnswers` | installd/matchgen.py:73-88 | a generated switch, run with fall-through and breaks, answers what the dict holds for the rest of the string |
| `MatchGen.GeneratedCodeFinds` | installd/MatchExtensionGen.h:23-797 | the generated function returns what the trie holds for the lower-cased string, or 0, and never reads past the terminator |
| `MatchGen.CompilerCorrect` | installd/matchgen.py:63-95 | for any table of NUL-free extensions the generator succeeds exactly when none is longer than five, and for every string the generated function returns the class of the last entry that equals the string up to case, and 0 when there is none |
| `MatchGen.OrderDoesNotMatter` | installd/matchgen.py:65-71 | when no extension has two classes, every order of insertion gives the same answers |
| `MatchGen.LongExtensionFails` | installd/matchgen.py:63 | a six-character extension makes the generator fail |
| `AbNames.OatNamesMeet` | installd/otapreopt.cpp:704-735 | for every path installd accepts, otapreopt writes the oat file where installd looks for it exactly when the apk path has an extension and the name fits the buffer |
| `AbNames.OatPathExactly` | installd/dexopt.cpp:2604-2645 | installd has a path for an oat file exactly when both paths are absolute without two dots in a row, the instruction set has no slash, the apk path is a directory, a slash, a name without slashes, a dot and an extension without dots, and the path is shorter than 1024; it is that name with .odex in the directory for the instruction set |
| `AbNames.ExtensionCommutes` | installd/dexopt.cpp:1027-1048 | replacing the extension commutes with appending the slot exactly for slots other than "dex" that do not start with "odex" |
| `AbNames.NamesMeet` | installd/dexopt.cpp:2519-2531 | all three names agree exactly when the apk path has an extension, the B name fits the buffer and the slot is such a slot |
| `AbNames.OdexSlotIsMisplaced` | installd/dexopt.cpp:1038-1044 | where the B vdex file goes for a slot that starts with "odex" |
| `AbNames.CachePathsMeet` | installd/otapreopt.cpp:773-801 | over the same data directory both sides compute the same dalvik-cache path for every input with a legal instruction set |
| `MoveAb.UnlinkAndRename` | installd/dexopt.cpp:2440-2464 | the files afterwards and the result, for every target that is absent, regular or something else and for failing calls |
| `MoveAb.MoveAbPath` | installd/dexopt.cpp:2467-2495 | the files afterwards and the result for one artifact, with its clean-up of the B file |
| `MoveAb.MoveAb` | installd/dexopt.cpp:2497-2561 | a call is accepted exactly for a legal slot, valid paths and an oat path as AbNames.OatPathExactly gives it; a refused call changes nothing, an accepted one leaves what the three moves in order leave |
| `MoveAb.NamesAreApart` | installd/dexopt.cpp:2523-2531 | the six paths of one call are different |
| `MoveAb.RunOutcome` | installd/dexopt.cpp:2533-2560 | what each of the six paths holds after any run, and that no other path changes |
| `MoveAb.NoBArtifactSurvives` | installd/dexopt.cpp:2440-2561 | with regular or absent files and working unlinks no B artifact survives, whatever renames fail |
| `MoveAb.SuccessIsComplete` | installd/dexopt.cpp:2533-2550 | success means that the A oat and vdex files are the old B ones, and the A image the old B image or absent |
| `MoveAb.SecondRunChangesNothing` | installd/dexopt.cpp:2497-2561 | a second run changes nothing and reports failure |
| `MoveAb.StaleVdex` | installd/dexopt.cpp:2535-2554 | a new A oat file ends beside the old A vdex file exactly when the B oat file is moved, there is no B vdex file and there is an old A vdex file |
| `MoveAb.AcceptedCall` | installd/dexopt.cpp:2497-2561 | outcome and idempotence for every accepted call, on the six paths spelled out from that oat path and the slot |
| `OtaParameters.OTAPreoptParameters.ReadArguments` | installd/otapreopt_parameters.cpp:59-111 | accepts exactly the lines that have a meaning and then holds that meaning, whatever the fields held before |
| `OtaParameters.OTAPreoptParameters.ReadArgumentsV1` | installd/otapreopt_parameters.cpp:143-238 | accepts exactly ten arguments and stores them, with the defaults of later arguments and the moved flags |
| `OtaParameters.OTAPreoptParameters.ReadArgumentsPostV1` | installd/otapreopt_parameters.cpp:240-377 | accepts exactly the known versions with their number of arguments and, before version 10, shared libraries other than "&" |
| `OtaParameters.VersionsAgree` | installd/otapreopt_parameters.cpp:240-377 | a line of version 2 to 9 means what the version 10 line with the missing arguments means, plus the compact-dex flag below version 8; with "&" it is refused |
| `OtaParameters.UnversionedIsVersionTwo` | installd/otapreopt_parameters.cpp:82-101 | fourteen arguments without a version mean the version 2 line |
| `OtaParameters.VersionOneUpgrades` | installd/otapreopt_parameters.cpp:143-238 | a version 1 line means the version 10 line with the missing arguments, its flags moved and a compilation from scratch |
| `OtaParameters.RemapIsBitExact` | installd/otapreopt_parameters.cpp:191-212 | bit by bit, each version 1 flag moves to its new place, the compact-dex flag is set, and nothing else; the result lies in DEXOPT_MASK |
| `OtaParameters.LineDecidesAll` | installd/otapreopt_parameters.cpp:117-141 | no parameter of an accepted line is left over from before |
| `OtaParameters.CurrentLine` | installd/otapreopt_parameters.cpp:240-377 | which argument of a version 10 line goes to which field, what "true" and "!" mean |
| `ValidatePath.ValidatePath` | installd/utils.cpp:831-865 | accepts exactly when the directory is well formed, neither has "..", the path is below it, and at most maxSubdirs runs of slashes follow |
| `ValidatePath.NextRun` | installd/utils.cpp:850-859 | a step from one slash to the next passes a run of slashes exactly when the two are not adjacent |
| `ValidatePath.RunsCountComponents` | installd/utils.cpp:824-828 | runs of slashes and path components differ by whether the rest starts or ends with a slash |
| `ValidatePath.AcceptedDepth` | installd/utils.cpp:824-828 | an accepted path has at most maxSubdirs + 1 components below the directory |
| `ValidatePath.AcceptedExactly` | installd/utils.cpp:924-945 | accepted is exactly what is valid in one of the five directories, or on a volume of adopted storage whose rewriting to the data directory is accepted |
| `ValidatePath.EndsExactlyWhen` | installd/utils.cpp:924-945 | the recursion ends for every path exactly when the data directory is shorter than 14 characters or not below /mnt/expand/ |
| `ValidatePath.AdoptedStorage` | installd/utils.cpp:935-943 | a path on adopted storage is accepted exactly when it is an asec path or its rewriting to the data directory is accepted |
| `ValidatePath.AcceptedMeansBelow` | installd/utils.cpp:924-945 | whatever is accepted is, possibly after rewriting, below one of the five directories and at most that deep |
| `Dexopt.Dex2oatFileWrapper.Reset` | installd/dexopt.cpp:1198-1207 | closes the held descriptor if it is this wrapper's to close, runs the clean-up if it is on, and holds the new one |
| `Dexopt.Dex2oatFileWrapper.Move` | installd/dexopt.cpp:1170-1177 | takes everything over and leaves the other wrapper with nothing to close or clean up |
| `Dexopt.Dex2oatFileWrapper.Destroy` | installd/dexopt.cpp:1186-1188 | lets go of the descriptor and runs the clean-up exactly when it is on |
| `Dexopt.OpenOatOutFile` | installd/dexopt.cpp:1448-1466 | an opened oat file is the right one, its owner was set and the wrapper answers for its unlinking; a failure leaves no file behind and comes from a missing name or a refused request |
| `Dexopt.OpenVdexFiles` | installd/dexopt.cpp:1355-1442 | the input is the vdex file of the right oat file, or -1 if it is not wanted or was refused; the output is the same descriptor, which only the output closes, exactly in an update in place, and otherwise a new vdex file; a failure comes from a missing name or a refused request |
| `Dexopt.MaybeOpenAppImage` | installd/dexopt.cpp:1239-1286 | the descriptor is that of the image if one is wanted and nothing was refused, and otherwise -1; an image file is left only together with a descriptor and a wrapper that would unlink it |
| `Dexopt.MaybeOpenReferenceProfile` | installd/dexopt.cpp:1312-1351 | the profile opened is that of the dex path or the profile name, as the call asks; it is in use exactly when the wrapper would clear it |
| `Dexopt.Compile` | installd/dexopt.cpp:2120-2190 | dex2oat runs on the descriptors of its own files and its result is the result; a failure leaves no swap or image file and the used profile cleared, a success leaves the image exactly when dex2oat was given one, and the vdex file |
| `Dexopt.Dexopt` | installd/dexopt.cpp:2008-2192 | a call that compiles runs dex2oat once everything is open, each descriptor it gets (input, context, oat, both vdex files, image, swap, reference profile, metadata) being that of its own file and -1 only where the file is not wanted or was refused, and returns its result; or it returns -1 because a name is missing or the last answer refused something required. Every exit has closed what it opened and nothing else. After a failure no file it opened for writing is left, and the used profile is cleared; after a success exactly the oat and vdex file are left, and the image when dex2oat was given one |
| `Dexopt.GrantedCallCompiles` | installd/dexopt.cpp:2062-2192 | dex2oat runs exactly when no name is missing and nothing required was refused; when the system grants every request the call succeeds and dex2oat gets every file that is wanted |
| `Dexopt.OutputsApart` | installd/dexopt.cpp:1027-1059 | the paths one compilation writes to are different |
| `Dexopt.EveryDescriptorIsClosedOnce` | installd/dexopt.cpp:1162-1236 | in the history of such a call the next event of every opened descriptor is its one closing |
| `DumpstateProgress.SavedIsLoaded` | dumpstate/utils.cpp:157-186 | parsing the saved line gives back the saved stats, for all integers |
| `DumpstateProgress.Progress.constructor` | dumpstate/utils.cpp:128-139 | the stats and the maximum a file leads to: the stored average when it is acceptable, the default otherwise |
| `DumpstateProgress.Progress.Load` | dumpstate/utils.cpp:141-172 | the same for Load; unacceptable stats are kept although the maximum ignores them |
| `DumpstateProgress.Progress.Save` | dumpstate/utils.cpp:174-190 | the file holds the stats of one more run, rounded down |
| `DumpstateProgress.Progress.Inc` | dumpstate/utils.cpp:194-206 | progress grows by the delta, negative ones aside; the maximum grows exactly when progress exceeds it |
| `DumpstateProgress.RecordRun` | dumpstate/utils.cpp:120-190 | load, increments and save take the file from the stats of the runs before to the stats of the runs with this one |
| `DumpstateProgress.AverageIsBetween` | dumpstate/utils.cpp:174-178 | over any number of runs the stored average lies between the shortest and the longest |
| `DumpstateProgress.DriftIsBounded` | dumpstate/utils.cpp:174-178 | over any n runs the stored average is at most the mean and falls short of it by at most (n - 1) / 2 |
| `DumpstateProgress.DriftBoundIsReached` | dumpstate/utils.cpp:174-178 | for every n there are n runs that reach the bound |
| `DumpstateProgress.AcceptedFor1000Runs` | dumpstate/utils.cpp:160-171 | runs of 1 to 100000 seconds leave acceptable stats exactly while there are between 1 and 1000 of them |
| `DumpstateProgress.RunKeepsMax` | dumpstate/utils.cpp:194-206 | over a whole run progress stays within the maximum and neither decreases |
| `DumpstateProgress.GrowthMustNotShrink` | dumpstate/utils.cpp:194-206 | progress stays within the maximum for all increments exactly when the growth factor is at least one |
| `DumpstateProgress.Dumpstate.UpdateProgress` | dumpstate/utils.cpp:830-880 | the listener is told, and the line with progress and maximum written to the socket, exactly when a report is due, and a new maximum is told at once; all percentages lie in 0..100 and reports after the first are the threshold apart |
| `DumpstateProgress.PercentIsPercent` | dumpstate/utils.cpp:861 | progress within a positive maximum is a percentage from 0 to 100 |

## Left out

- FreeCache.FreeCache: locks and files changed by others meanwhile are not modelled: what a later walk finds is the tree of the start without the entries that are gone, an emptied file without blocks, and changed modification times, which are a parameter. A directory keeps its blocks. A data path whose walk fails is one whose tree cannot be opened.
- CacheRuns.EveryPurge: asks that no cache directory lies in another one, of the same tracker or a different one, and that names in a directory differ; system calls fail only for the reasons the file system gives.
- Bounce.QuotaSafety: the product used * 10000 is not bounded to 64 bits. That every tracker is under its quota at the end holds only as far as `Bounce.QuotaStopAfterSwap` says.
- CacheTrackers.SortItems: std::stable_sort is any mix of insertion sort and merging of two parts, chosen by the length of the list; merging in place by rotations is not modelled. The proofs about runs only use that the result is a permutation in the intended order.
- CacheTrackers.CacheItem.Purge: following a link fails when an entry is missing, a file stands where a directory is needed, or after 40 links; permissions, path lengths and the links of a walk's own root are not modelled.
- OutsideFiles.OutsideIsSafe: speaks of runs from the same file system with any modification times and quotas; for one device with its times the order of purges decides which of the links still lead to a file when their turn comes (`CacheRuns.OnlyCachesChange`). The same holds of `ChargedUse.ChargedIsThere`.
- CacheTrackers.LoadWalk: a report without an item is passed over rather than dereferenced; walk errors (FTS_ERR, FTS_DNR) are not reported.
- FixupGid.FixupAppData: chown and chmod calls succeed, and sibling entries have different names. The known users, their directories and the cache group of a uid are parameters; a data directory that does not exist is left out of a user's list.
- ExternalSize.MeasureExternal: quota-based measuring and the obb walk are not modelled.
- MatchGen.CompilerCorrect: the printed text is modelled as statements; how characters are quoted in C is not. The trie is a value, not nested mutable dicts.
- MoveAb.RunOutcome: asks that the six paths hold regular files or nothing and can be unlinked; renames may fail freely. The outcome of validate_apk_path and the slot property are parameters.
- MoveAb.StaleVdex: asks that the compared old and new files differ in content.
- OtaParameters.OTAPreoptParameters.ReadArguments: atoi and strtoll are parameters; ints used as flags are sets of bits. What a refused line leaves in the fields is not stated beyond the slot.
- OtaParameters.VersionsAgree: asks that atoi reads "0" as zero.
- ValidatePath.AdoptedStorage: asks that the data directory is not itself on adopted storage; otherwise the recursion need not end. validate_apk_path_internal is modelled with a number of calls, and acceptance as acceptance within some number of calls.
- Dexopt.Dexopt: an unlink counts as issued, whether or not it succeeds; the checks before the first open, path computations and properties are parameters, as are the answers to all requests, the exit status of dex2oat among them; nothing runs in the forked child. Creating an output file is one request, its mode and flags are not modelled.
- DumpstateProgress.Progress.Inc: the growth factor and products are exact reals; single-precision rounding and overflow of 32 bits are not modelled.
- DumpstateProgress.Progress.Save: the value of a float division by zero, reached after a file that says -1 runs, is a parameter; the average is an exact quotient rounded down.
- Binder, SELinux, the quota service, statvfs, extended attributes: values that come from them are parameters or fields of the tree.
- Process control (dex2oat, profman, dexoptanalyzer, idmap, cp), profiles, snapshots, package moves: orchestration of external programs.
- calculate_odex_file_path_default and the other callers of replace_file_extension: same computation as the modelled ones.
- validate_secondary_dex_path and validate_system_app_path: prefix tests without a loop of their own.
- atrace, bugreport, bugreportz, cmd, dumpsys, flatland, ip-up-vpn, lshal and the section dumping of dumpstate: plumbing whose properties would be easy.
