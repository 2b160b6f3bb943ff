/**
  The checks that keep installd inside the directories apps are installed in:
  how deep a path may lie below a directory, and the rewriting of paths on
  adopted storage.
*/
module ValidatePath {
  import opened Wrappers
  import opened Strings

  // ----- Depth below a directory

  /** A run of slashes ends at `k`. */
  predicate IsRunEnd(s: string, k: nat) {
    k < |s| && s[k] == '/' && (k + 1 == |s| || s[k + 1] != '/')
  }

  /** The positions at or after `from` where a run of slashes ends. */
  function RunEnds(s: string, from: nat): set<nat> {
    set k: nat | from <= k < |s| && IsRunEnd(s, k)
  }

  /** A directory that validate_path can work with. */
  predicate IsDirectory(dir: string) {
    dir != [] && dir[0] == '/' && dir[|dir| - 1] == '/' && !Contains(dir, "..")
  }

  /** What validate_path accepts. */
  predicate ValidPath(dir: string, path: string, maxSubdirs: int) {
    && IsDirectory(dir)
    && !Contains(path, "..")
    && StartsWith(path, dir)
    && |RunEnds(path, |dir|)| <= maxSubdirs
  }

  /** The run ends before the slash at `pos`. */
  ghost function EndsBefore(s: string, from: nat, pos: nat): set<nat> {
    set k <- RunEnds(s, from) | k < pos
  }

  lemma NextRun(s: string, from: nat, pos: nat, next: nat)
    requires from <= pos < next <= |s| && s[pos] == '/'
    requires forall k | pos < k < next :: s[k] != '/'
    requires next < |s| ==> s[next] == '/'
    ensures |EndsBefore(s, from, next)|
            == |EndsBefore(s, from, pos)| + if next > pos + 1 || next == |s| then 1 else 0
  {
    if next > pos + 1 || next == |s| {
      assert EndsBefore(s, from, next) == EndsBefore(s, from, pos) + {pos};
    } else {
      assert EndsBefore(s, from, next) == EndsBefore(s, from, pos);
    }
  }

  method ValidatePath(dir: string, path: string, maxSubdirs: int) returns (r: int)
    ensures r == if ValidPath(dir, path, maxSubdirs) then 0 else -1
  {
    if dir == [] || IndexFrom(dir, '/', 0) != Some(0) || LastIndex(dir, '/') != Some(|dir| - 1) || Contains(dir, "..") {
      return -1;
    }
    if Contains(path, "..") {
      return -1;
    }
    if !StartsWith(path, dir) {
      return -1;
    }
    var pos := IndexFrom(path, '/', |dir|);
    var count := 0;
    assert EndsBefore(path, |dir|, if pos.Some? then pos.value else |path|) == {};
    while pos.Some?
      invariant pos.Some? ==> |dir| <= pos.value < |path| && path[pos.value] == '/'
      invariant count == |EndsBefore(path, |dir|, if pos.Some? then pos.value else |path|)|
      decreases if pos.Some? then |path| - pos.value else 0
    {
      var next := IndexFrom(path, '/', pos.value + 1);
      if next.None? || next.value > pos.value + 1 {
        count := count + 1;
      }
      NextRun(path, |dir|, pos.value, if next.Some? then next.value else |path|);
      pos := next;
    }
    assert EndsBefore(path, |dir|, |path|) == RunEnds(path, |dir|);
    if count > maxSubdirs {
      return -1;
    }
    return 0;
  }

  // ----- Depth in components

  /** A non-empty component of a relative path starts at `k`. */
  predicate IsStart(s: string, k: nat) {
    k < |s| && s[k] != '/' && (k == 0 || s[k - 1] == '/')
  }

  function Components(s: string): set<nat> {
    set k: nat | k < |s| && IsStart(s, k)
  }

  ghost function Shifted(a: set<nat>): set<nat> {
    set k <- a :: k + 1
  }

  lemma {:induction false} ShiftedSize(a: set<nat>)
    ensures |Shifted(a)| == |a|
  {
    if k :| k in a {
      ShiftedSize(a - {k});
      forall x: nat ensures x in Shifted(a) <==> x in Shifted(a - {k}) + {k + 1} {
        assert x in Shifted(a) <==> x > 0 && x - 1 in a;
        assert x in Shifted(a - {k}) <==> x > 0 && x - 1 in a - {k};
      }
      assert Shifted(a) == Shifted(a - {k}) + {k + 1};
    }
  }

  /**
    The runs of slashes below a directory and the components below it: one
    component more than runs, unless the path continues with a slash or ends
    in one.
  */
  lemma RunsCountComponents(s: string)
    requires s != []
    ensures |Components(s)| == |RunEnds(s, 0)| + (if s[0] != '/' then 1 else 0) - (if s[|s| - 1] == '/' then 1 else 0)
  {
    var last: set<nat> := if s[|s| - 1] == '/' then {|s| - 1} else {};
    var first: set<nat> := if s[0] != '/' then {0} else {};
    var inner := RunEnds(s, 0) - last;
    ShiftedSize(inner);
    forall k | k in Components(s) && k != 0 ensures k in Shifted(inner) {
      assert k - 1 in inner;
    }
    assert Components(s) == Shifted(inner) + first;
    assert RunEnds(s, 0) == inner + last;
  }

  lemma RunsBelow(path: string, from: nat)
    requires from <= |path|
    ensures |RunEnds(path, from)| == |RunEnds(path[from..], 0)|
    decreases from
  {
    if from == 0 {
      assert path[0..] == path;
    } else {
      RunsBelow(path[1..], from - 1);
      assert path[1..][from - 1..] == path[from..];
      ShiftedSize(RunEnds(path[1..], from - 1));
      forall k | k in RunEnds(path, from) ensures k in Shifted(RunEnds(path[1..], from - 1)) {
        assert k - 1 in RunEnds(path[1..], from - 1);
      }
      assert RunEnds(path, from) == Shifted(RunEnds(path[1..], from - 1));
    }
  }

  /** An accepted path has at most one component more below the directory than the allowed depth. */
  lemma AcceptedDepth(dir: string, path: string, maxSubdirs: nat)
    requires ValidPath(dir, path, maxSubdirs)
    ensures |Components(path[|dir|..])| <= maxSubdirs + 1
  {
    var rest := path[|dir|..];
    RunsBelow(path, |dir|);
    if rest != [] {
      RunsCountComponents(rest);
    }
  }

  // ----- Paths of apk files

  const MNT_EXPAND: string := "/mnt/expand/"

  datatype Globals = Globals(dataDir: string, asecDir: string)

  function ApkDirs(g: Globals): seq<string> {
    [g.dataDir + "app/", g.dataDir + "app-staging/", g.dataDir + "app-private/", g.dataDir + "app-ephemeral/",
     g.asecDir]
  }

  predicate DirectlyValid(g: Globals, path: string, maxSubdirs: int) {
    var dirs := ApkDirs(g);
    || ValidPath(dirs[0], path, maxSubdirs)
    || ValidPath(dirs[1], path, maxSubdirs)
    || ValidPath(dirs[2], path, maxSubdirs)
    || ValidPath(dirs[3], path, maxSubdirs)
    || ValidPath(dirs[4], path, maxSubdirs)
  }

  /** The path as if it were on internal storage; None when it is not on adopted storage. */
  function Rewritten(g: Globals, path: string): (r: Option<string>) {
    if !StartsWith(path, MNT_EXPAND) then None
    else
      match IndexFrom(path, '/', |MNT_EXPAND| + 1)
      case None => None
      case Some(end) => Some(g.dataDir + path[end + 1..])
  }

  /** validate_apk_path_internal within a number of calls; None when they do not suffice. */
  function Validate(g: Globals, path: string, maxSubdirs: int, calls: nat): Option<bool>
    decreases calls
  {
    if calls == 0 then None
    else if DirectlyValid(g, path, maxSubdirs) then Some(true)
    else
      match Rewritten(g, path)
      case None => Some(false)
      case Some(modified) => Validate(g, modified, maxSubdirs, calls - 1)
  }

  ghost predicate Returns(g: Globals, path: string, maxSubdirs: int) {
    exists calls: nat :: Validate(g, path, maxSubdirs, calls).Some?
  }

  ghost predicate Accepts(g: Globals, path: string, maxSubdirs: int) {
    exists calls: nat :: Validate(g, path, maxSubdirs, calls) == Some(true)
  }

  lemma {:induction false} MoreCalls(g: Globals, path: string, maxSubdirs: int, calls: nat, more: nat)
    requires Validate(g, path, maxSubdirs, calls).Some? && calls <= more
    ensures Validate(g, path, maxSubdirs, more) == Validate(g, path, maxSubdirs, calls)
    decreases calls
  {
    if !DirectlyValid(g, path, maxSubdirs) && Rewritten(g, path).Some? {
      MoreCalls(g, Rewritten(g, path).value, maxSubdirs, calls - 1, more - 1);
    }
  }

  /** A path on adopted storage: the name of the volume, whose first character may be anything, and the rest. */
  ghost predicate OnVolume(path: string, volume: string, rest: string) {
    path == "/mnt/expand/" + volume + "/" + rest && |volume| > 0 && '/' !in volume[1..]
  }

  lemma VolumeIsRewritten(g: Globals, path: string, volume: string, rest: string)
    requires OnVolume(path, volume, rest)
    ensures Rewritten(g, path) == Some(g.dataDir + rest)
  {
    var end := |MNT_EXPAND| + |volume|;
    assert path[..|MNT_EXPAND|] == MNT_EXPAND && path[end] == '/' && path[end + 1..] == rest;
    forall k | |MNT_EXPAND| + 1 <= k < end ensures path[k] != '/' {
      assert path[k] == volume[1..][k - |MNT_EXPAND| - 1];
    }
  }

  lemma RewrittenHasVolume(g: Globals, path: string) returns (volume: string, rest: string)
    requires Rewritten(g, path).Some?
    ensures OnVolume(path, volume, rest)
  {
    var end := IndexFrom(path, '/', |MNT_EXPAND| + 1).value;
    volume, rest := path[|MNT_EXPAND|..end], path[end + 1..];
    assert path == path[..|MNT_EXPAND|] + volume + "/" + rest;
    forall c <- volume[1..] ensures c != '/' {
      var k :| 0 <= k < |volume[1..]| && volume[1..][k] == c;
      assert c == path[|MNT_EXPAND| + 1 + k];
    }
  }

  /**
    Exactly what is accepted: a path that is valid in one of the five directories,
    and a path on a volume of adopted storage that is accepted as a path in the
    data directory.
  */
  lemma AcceptedExactly(g: Globals, path: string, maxSubdirs: int)
    ensures Accepts(g, path, maxSubdirs)
            <==> || ValidPath(g.dataDir + "app/", path, maxSubdirs)
                 || ValidPath(g.dataDir + "app-staging/", path, maxSubdirs)
                 || ValidPath(g.dataDir + "app-private/", path, maxSubdirs)
                 || ValidPath(g.dataDir + "app-ephemeral/", path, maxSubdirs)
                 || ValidPath(g.asecDir, path, maxSubdirs)
                 || exists volume, rest :: OnVolume(path, volume, rest) && Accepts(g, g.dataDir + rest, maxSubdirs)
  {
    if Accepts(g, path, maxSubdirs) && !DirectlyValid(g, path, maxSubdirs) {
      var calls: nat :| Validate(g, path, maxSubdirs, calls) == Some(true);
      var volume, rest := RewrittenHasVolume(g, path);
      VolumeIsRewritten(g, path, volume, rest);
      assert Validate(g, g.dataDir + rest, maxSubdirs, calls - 1) == Some(true);
    }
    if DirectlyValid(g, path, maxSubdirs) {
      assert Validate(g, path, maxSubdirs, 1) == Some(true);
    } else if exists volume, rest :: OnVolume(path, volume, rest) && Accepts(g, g.dataDir + rest, maxSubdirs) {
      var volume, rest :| OnVolume(path, volume, rest) && Accepts(g, g.dataDir + rest, maxSubdirs);
      VolumeIsRewritten(g, path, volume, rest);
      var calls: nat :| Validate(g, g.dataDir + rest, maxSubdirs, calls) == Some(true);
      assert Validate(g, path, maxSubdirs, calls + 1) == Some(true);
    }
  }

  // ----- When the recursion ends

  /** The data directory is short, or not itself on adopted storage. */
  predicate Settles(g: Globals) {
    |g.dataDir| < |MNT_EXPAND| + 2 || !StartsWith(g.dataDir, MNT_EXPAND)
  }

  function CallsLeft(g: Globals, path: string): nat {
    if |g.dataDir| < |MNT_EXPAND| + 2 then |path| else if StartsWith(path, MNT_EXPAND) then 1 else 0
  }

  lemma RewritingSettles(g: Globals, path: string)
    requires Settles(g) && Rewritten(g, path).Some?
    ensures CallsLeft(g, Rewritten(g, path).value) < CallsLeft(g, path)
  {
    var modified := Rewritten(g, path).value;
    if |g.dataDir| >= |MNT_EXPAND| + 2 {
      assert modified[..|MNT_EXPAND|] == g.dataDir[..|MNT_EXPAND|];
    }
  }

  lemma {:induction false} EnoughCalls(g: Globals, path: string, maxSubdirs: int)
    requires Settles(g)
    ensures Validate(g, path, maxSubdirs, CallsLeft(g, path) + 1).Some?
    decreases CallsLeft(g, path)
  {
    if !DirectlyValid(g, path, maxSubdirs) && Rewritten(g, path).Some? {
      var modified := Rewritten(g, path).value;
      RewritingSettles(g, path);
      EnoughCalls(g, modified, maxSubdirs);
      MoreCalls(g, modified, maxSubdirs, CallsLeft(g, modified) + 1, CallsLeft(g, path));
    }
  }

  /** A path below an unsettled data directory is rewritten to another one, with the same end. */
  lemma RewrittenBelow(g: Globals, rest: string) returns (middle: string)
    requires !Settles(g) && g.dataDir[|g.dataDir| - 1] == '/'
    ensures Rewritten(g, g.dataDir + rest) == Some(g.dataDir + (middle + rest))
  {
    var path := g.dataDir + rest;
    assert path[..|MNT_EXPAND|] == g.dataDir[..|MNT_EXPAND|];
    assert path[|g.dataDir| - 1] == '/';
    var end := IndexFrom(path, '/', |MNT_EXPAND| + 1).value;
    middle := g.dataDir[end + 1..];
    assert path[end + 1..] == middle + rest;
  }

  /** Otherwise a path with ".." below the data directory is rewritten for ever. */
  lemma {:induction false} NeverSettles(g: Globals, rest: string, maxSubdirs: int, calls: nat)
    requires !Settles(g) && g.dataDir[|g.dataDir| - 1] == '/'
    requires EndsWith(rest, "..")
    ensures Validate(g, g.dataDir + rest, maxSubdirs, calls).None?
    decreases calls
  {
    if calls > 0 {
      DotsAtEnd(g.dataDir, rest);
      NotDirectlyValid(g, g.dataDir + rest, maxSubdirs);
      var middle := RewrittenBelow(g, rest);
      DotsAtEnd(middle, rest);
      NeverSettles(g, middle + rest, maxSubdirs, calls - 1);
    }
  }

  lemma NotDirectlyValid(g: Globals, path: string, maxSubdirs: int)
    requires Contains(path, "..")
    ensures !DirectlyValid(g, path, maxSubdirs)
  {
  }

  lemma DotsAtEnd(a: string, rest: string)
    requires EndsWith(rest, "..")
    ensures EndsWith(a + rest, "..") && Contains(a + rest, "..")
  {
    var s, p := a + rest, "..";
    assert rest[|rest| - 2 + 0] == p[0] && rest[|rest| - 2 + 1] == p[1];
    assert s[|s| - 2] == rest[|rest| - 2] && s[|s| - 1] == rest[|rest| - 1];
    assert MatchesAt(s, p, |s| - 2);
  }

  /** The recursion ends for every path exactly when the data directory settles. */
  lemma EndsExactlyWhen(g: Globals, maxSubdirs: int)
    requires g.dataDir != [] && g.dataDir[|g.dataDir| - 1] == '/'
    ensures (forall path :: Returns(g, path, maxSubdirs)) <==> Settles(g)
  {
    if Settles(g) {
      forall path ensures Returns(g, path, maxSubdirs) {
        EnoughCalls(g, path, maxSubdirs);
      }
    } else {
      var path := g.dataDir + "..";
      forall calls: nat ensures Validate(g, path, maxSubdirs, calls).None? {
        NeverSettles(g, "..", maxSubdirs, calls);
      }
      assert !Returns(g, path, maxSubdirs);
    }
  }

  // ----- Paths on adopted storage

  lemma BelowBoth(path: string, dir: string, sub: string)
    requires sub != [] && StartsWith(path, dir + sub)
    ensures StartsWith(path, dir) && |path| > |dir| && path[|dir|] == sub[0]
  {
    var d := dir + sub;
    assert path[..|d|][..|dir|] == path[..|dir|] && d[..|dir|] == dir;
    assert path[..|d|][|dir|] == d[|dir|];
  }

  /** Where a shorter directory stops inside "/mnt/expand/", the next character is 'm' or 'e'. */
  lemma StopsInside(path: string, dir: string)
    requires StartsWith(path, MNT_EXPAND) && StartsWith(path, dir)
    requires dir != [] && dir[|dir| - 1] == '/' && |dir| < |MNT_EXPAND|
    ensures path[|dir|] != 'a'
  {
    var m, n := MNT_EXPAND, |dir|;
    assert path[n - 1] == path[..n][n - 1] == '/';
    assert m[n - 1] == path[..|m|][n - 1] == '/' && m[n] == path[..|m|][n];
    assert m[0] == '/' && m[1] == 'm' && m[2] == 'n' && m[3] == 't' && m[4] == '/' && m[5] == 'e';
    assert m[6] == 'x' && m[7] == 'p' && m[8] == 'a' && m[9] == 'n' && m[10] == 'd' && m[11] == '/';
  }

  lemma ReachesOver(path: string, dir: string)
    requires StartsWith(path, MNT_EXPAND) && StartsWith(path, dir) && |dir| >= |MNT_EXPAND|
    ensures StartsWith(dir, MNT_EXPAND)
  {
    assert dir[..|MNT_EXPAND|] == path[..|dir|][..|MNT_EXPAND|] == path[..|MNT_EXPAND|];
  }

  /** A path on adopted storage lies in no directory below a data directory that is elsewhere. */
  lemma NotInternal(g: Globals, path: string, sub: string)
    requires g.dataDir != [] && g.dataDir[|g.dataDir| - 1] == '/' && !StartsWith(g.dataDir, MNT_EXPAND)
    requires StartsWith(path, MNT_EXPAND) && sub != [] && sub[0] == 'a'
    ensures !StartsWith(path, g.dataDir + sub)
  {
    if StartsWith(path, g.dataDir + sub) {
      BelowBoth(path, g.dataDir, sub);
      if |g.dataDir| < |MNT_EXPAND| {
        StopsInside(path, g.dataDir);
      } else {
        ReachesOver(path, g.dataDir);
      }
    }
  }

  /**
    A path on adopted storage is accepted exactly when it is an asec path or its
    rewriting to the data directory is accepted, provided that the data
    directory is not on adopted storage itself.
  */
  lemma AdoptedStorage(g: Globals, path: string, maxSubdirs: int)
    requires g.dataDir != [] && g.dataDir[|g.dataDir| - 1] == '/' && !StartsWith(g.dataDir, MNT_EXPAND)
    requires Rewritten(g, path).Some?
    ensures Accepts(g, path, maxSubdirs)
            <==> ValidPath(g.asecDir, path, maxSubdirs) || Accepts(g, Rewritten(g, path).value, maxSubdirs)
  {
    NotInternal(g, path, "app/");
    NotInternal(g, path, "app-staging/");
    NotInternal(g, path, "app-private/");
    NotInternal(g, path, "app-ephemeral/");
    assert DirectlyValid(g, path, maxSubdirs) <==> ValidPath(g.asecDir, path, maxSubdirs);
    var modified := Rewritten(g, path).value;
    if ValidPath(g.asecDir, path, maxSubdirs) {
      assert Validate(g, path, maxSubdirs, 1) == Some(true);
    } else {
      if Accepts(g, path, maxSubdirs) {
        var calls: nat :| Validate(g, path, maxSubdirs, calls) == Some(true);
        assert Validate(g, modified, maxSubdirs, calls - 1) == Some(true);
      }
      if Accepts(g, modified, maxSubdirs) {
        var calls: nat :| Validate(g, modified, maxSubdirs, calls) == Some(true);
        assert Validate(g, path, maxSubdirs, calls + 1) == Some(true);
      }
    }
  }

  /** Whatever is accepted was, after the rewritings, below one of the five directories and at most that deep. */
  lemma {:induction false} AcceptedMeansBelow(g: Globals, path: string, maxSubdirs: int, calls: nat)
    returns (last: string)
    requires Validate(g, path, maxSubdirs, calls) == Some(true)
    ensures exists dir <- ApkDirs(g) :: ValidPath(dir, last, maxSubdirs)
    ensures last == path || StartsWith(last, g.dataDir)
    decreases calls
  {
    if DirectlyValid(g, path, maxSubdirs) {
      var dirs := ApkDirs(g);
      assert dirs[0] in dirs && dirs[1] in dirs && dirs[2] in dirs && dirs[3] in dirs && dirs[4] in dirs;
      last := path;
    } else {
      var modified := Rewritten(g, path).value;
      assert modified[..|g.dataDir|] == g.dataDir;
      last := AcceptedMeansBelow(g, modified, maxSubdirs, calls - 1);
    }
  }
}
