/**
  The manual walk of `getExternalSize`: files outside the top-level Android
  directory are counted by media class, everything below it counts as app data.
*/
module ExternalSize {
  import opened Wrappers
  import opened Fts
  import opened CacheItems

  const AID_MEDIA_AUDIO := 1055
  const AID_MEDIA_VIDEO := 1056
  const AID_MEDIA_IMAGE := 1057

  /** The class of a file extension, 0 when it has none: the generated MatchExtension. */
  type Matcher = string -> int

  datatype Sizes = Sizes(total: int, audio: int, video: int, image: int, app: int)

  const ZERO := Sizes(0, 0, 0, 0, 0)

  function Add(a: Sizes, b: Sizes): Sizes {
    Sizes(a.total + b.total, a.audio + b.audio, a.video + b.video, a.image + b.image, a.app + b.app)
  }

  /** What follows the last dot of a name, as strrchr finds it. */
  function Extension(name: string): (ext: Option<string>)
    ensures ext.Some? <==> '.' in name
    ensures ext.Some? ==> '.' !in ext.value && exists stem: string :: name == stem + "." + ext.value
  {
    if name == [] then None
    else
      var last := |name| - 1;
      assert name == name[..last] + [name[last]];
      if name[last] == '.' then
        assert name == name[..last] + "." + [];
        Some([])
      else
        match Extension(name[..last])
        case None => None
        case Some(ext) =>
          ghost var stem :| name[..last] == stem + "." + ext;
          assert name == stem + "." + (ext + [name[last]]);
          Some(ext + [name[last]])
  }

  function MediaClass(matcher: Matcher, name: string): int {
    match Extension(name)
    case None => 0
    case Some(ext) => matcher(ext)
  }

  // ----- The walk

  datatype Walking = Walking(sizes: Sizes, number: map<Path, int>)

  function NumberOf(number: map<Path, int>, p: Path): int {
    if p in number then number[p] else 0
  }

  /** fts_number of the parent; the root's parent is a dummy whose number is zero. */
  function ParentNumber(s: Walking, p: Entry): int {
    if p.level == 0 || p.path == [] then 0 else NumberOf(s.number, ParentOf(p.path))
  }

  function CountMedia(matcher: Matcher, sizes: Sizes, n: Node): Sizes {
    var aid := MediaClass(matcher, n.name);
    if aid == AID_MEDIA_AUDIO then sizes.(audio := sizes.audio + SizeOf(n))
    else if aid == AID_MEDIA_VIDEO then sizes.(video := sizes.video + SizeOf(n))
    else if aid == AID_MEDIA_IMAGE then sizes.(image := sizes.image + SizeOf(n))
    else sizes
  }

  function StepSizes(matcher: Matcher, s: Walking, p: Entry): Walking {
    if p.info == FTS_DP then s
    else
      var above := ParentNumber(s, p);
      var media := if p.info == FTS_F && above == 0 then CountMedia(matcher, s.sizes, p.node) else s.sizes;
      var number :=
        if p.info == FTS_F || p.info == FTS_D then s.number[p.path := Below(p.node, p.level, above)] else s.number;
      var app := if above == 1 then media.(app := media.app + SizeOf(p.node)) else media;
      Walking(app.(total := app.total + SizeOf(p.node)), number)
  }

  function Step(matcher: Matcher): (Walking, Entry) -> (Walking, bool) {
    (s: Walking, p: Entry) => (StepSizes(matcher, s, p), false)
  }

  /** The loop body: one report of the walk. */
  method Account(e: Entry, matcher: Matcher, total0: int, audio0: int, video0: int, image0: int, app0: int,
                 number0: map<Path, int>)
    returns (total: int, audio: int, video: int, image: int, app: int, number: map<Path, int>)
    ensures Walking(Sizes(total, audio, video, image, app), number)
            == StepSizes(matcher, Walking(Sizes(total0, audio0, video0, image0, app0), number0), e)
  {
    total, audio, video, image, app, number := total0, audio0, video0, image0, app0, number0;
    if e.info == FTS_DP {
      return;
    }
    var size := SizeOf(e.node);
    var above := if e.level == 0 || e.path == [] then 0 else NumberOf(number, ParentOf(e.path));
    if e.info == FTS_F && above == 0 {
      var aid := MediaClass(matcher, e.node.name);
      if aid == AID_MEDIA_AUDIO {
        audio := audio + size;
      } else if aid == AID_MEDIA_VIDEO {
        video := video + size;
      } else if aid == AID_MEDIA_IMAGE {
        image := image + size;
      }
    }
    ghost var sizes0, sizes := Sizes(total0, audio0, video0, image0, app0), Sizes(total, audio, video, image, app);
    assert sizes == if e.info == FTS_F && above == 0 then CountMedia(matcher, sizes0, e.node) else sizes0;
    if e.info == FTS_F || e.info == FTS_D {
      number := number[e.path := above];
      if e.level == 1 && e.node.name == "Android" {
        number := number[e.path := 1];
      }
    }
    if above == 1 {
      app := app + size;
    }
    total := total + size;
  }

  method MeasureExternal(tree: Node, path: Path, matcher: Matcher) returns (sizes: Sizes)
    ensures sizes == Measure(matcher, tree, 0, 0)
  {
    ghost var end := Measure(matcher, tree, 0, 0);
    WalkNode(matcher, tree, path, 0, tree.stat, Walking(ZERO, map[]));
    var total, audio, video, image, app := 0, 0, 0, 0, 0;
    var number: map<Path, int> := map[];
    var fts := new Walk(tree, path);
    var p := fts.Read();
    while p.Some?
      invariant fresh(fts) && fts.started && !fts.skip
      invariant p == if fts.work == [] then None else Some(Report(fts.work[0]))
      invariant Run(Step(matcher), fts.work, Walking(Sizes(total, audio, video, image, app), number)).sizes == end
      decreases Pending(fts.work)
    {
      ghost var before := Walking(Sizes(total, audio, video, image, app), number);
      total, audio, video, image, app, number :=
        Account(p.value, matcher, total, audio, video, image, app, number);
      RunStep(Step(matcher), fts.work, before, Walking(Sizes(total, audio, video, image, app), number), false);
      p := fts.Read();
    }
    sizes := Sizes(total, audio, video, image, app);
  }

  // ----- The sizes, by recursion on the tree

  function Own(matcher: Matcher, n: Node, above: int): Sizes {
    var media := if n.Leaf? && n.kind == Regular && above == 0 then CountMedia(matcher, ZERO, n) else ZERO;
    media.(total := SizeOf(n), app := if above == 1 then SizeOf(n) else 0)
  }

  function Measure(matcher: Matcher, n: Node, level: nat, above: int): Sizes {
    Add(Own(matcher, n, above),
        if n.Dir? then MeasureAll(matcher, n.children, level + 1, Below(n, level, above)) else ZERO)
  }

  /** The number the children of a directory see. */
  function Below(n: Node, level: nat, above: int): int {
    if level == 1 && n.name == "Android" then 1 else above
  }

  function MeasureAll(matcher: Matcher, children: seq<Node>, level: nat, above: int): Sizes {
    if children == [] then ZERO
    else Add(Measure(matcher, children[0], level, above), MeasureAll(matcher, children[1..], level, above))
  }

  ghost predicate SameAbove(a: map<Path, int>, b: map<Path, int>, depth: nat) {
    forall q: Path :: |q| < depth ==> NumberOf(a, q) == NumberOf(b, q)
  }

  /** What entering a node adds to the sizes and to the numbers. */
  lemma EnterNode(matcher: Matcher, n: Node, path: Path, level: nat, parent: Stat, s: Walking)
    ensures var above := if level == 0 || path == [] then 0 else NumberOf(s.number, ParentOf(path));
            var s' := StepSizes(matcher, s, Report(Enter(n, path, level, parent)));
            && s'.sizes == Add(s.sizes, Own(matcher, n, above))
            && SameAbove(s.number, s'.number, |path|)
            && (n.Dir? ==> NumberOf(s'.number, path) == Below(n, level, above))
  {
  }

  lemma AddAssociates(a: Sizes, b: Sizes, c: Sizes)
    ensures Add(Add(a, b), c) == Add(a, Add(b, c)) && Add(a, ZERO) == a
  {
  }

  lemma LeaveDir(matcher: Matcher, n: Node, path: Path, level: nat, parent: Stat, s: Walking)
    ensures Step(matcher)(s, Report(Leave(n, path, level, parent))) == (s, false)
  {
  }

  lemma {:induction false} WalkNode(matcher: Matcher, n: Node, path: Path, level: nat, parent: Stat, s: Walking)
    ensures var above := if level == 0 || path == [] then 0 else NumberOf(s.number, ParentOf(path));
            var s' := Run<Walking>(Step(matcher), [Enter(n, path, level, parent)], s);
            && s'.sizes == Add(s.sizes, Measure(matcher, n, level, above))
            && SameAbove(s.number, s'.number, |path|)
    decreases n, 1
  {
    var w := Enter(n, path, level, parent);
    var above := if level == 0 || path == [] then 0 else NumberOf(s.number, ParentOf(path));
    EnterNode(matcher, n, path, level, parent, s);
    var own := Own(matcher, n, above);
    AddAssociates(s.sizes, own, ZERO);
    if n.Leaf? {
      RunLeaf<Walking>(Step(matcher), w, s);
    } else {
      WalkDir(matcher, n, path, level, parent, s, above);
    }
  }

  lemma {:induction false} WalkDir(matcher: Matcher, n: Node, path: Path, level: nat, parent: Stat, s: Walking,
                                   above: int)
    requires n.Dir? && above == if level == 0 || path == [] then 0 else NumberOf(s.number, ParentOf(path))
    ensures var s' := Run<Walking>(Step(matcher), [Enter(n, path, level, parent)], s);
            && s'.sizes == Add(s.sizes, Measure(matcher, n, level, above))
            && SameAbove(s.number, s'.number, |path|)
    decreases n, 0
  {
    var w := Enter(n, path, level, parent);
    EnterNode(matcher, n, path, level, parent, s);
    RunDir<Walking>(Step(matcher), w, s);
    var s1 := StepSizes(matcher, s, Report(w));
    WalkChildren(matcher, n.children, path, level, n.stat, s1);
    var s2 := Run<Walking>(Step(matcher), ChildWork(n.children, path, level, n.stat), s1);
    LeaveDir(matcher, n, path, level, parent, s2);
    AddAssociates(s.sizes, Own(matcher, n, above), MeasureAll(matcher, n.children, level + 1, Below(n, level, above)));
  }

  /** What a walk of the children of the directory at `path`, seeing the number `above`, must lead to. */
  ghost predicate Counted(matcher: Matcher, children: seq<Node>, path: Path, level: nat, above: int, s: Walking,
                          s': Walking) {
    && s'.sizes == Add(s.sizes, MeasureAll(matcher, children, level + 1, above))
    && SameAbove(s.number, s'.number, |path| + 1)
  }

  lemma CountedTogether(matcher: Matcher, children: seq<Node>, path: Path, level: nat, above: int, s: Walking,
                        s1: Walking, s2: Walking)
    requires children != []
    requires s1.sizes == Add(s.sizes, Measure(matcher, children[0], level + 1, above))
    requires SameAbove(s.number, s1.number, |path| + 1)
    requires Counted(matcher, children[1..], path, level, above, s1, s2)
    ensures Counted(matcher, children, path, level, above, s, s2)
  {
    AddAssociates(s.sizes, Measure(matcher, children[0], level + 1, above),
                  MeasureAll(matcher, children[1..], level + 1, above));
  }

  lemma {:induction false} WalkChildren(matcher: Matcher, children: seq<Node>, path: Path, level: nat, parent: Stat,
                                        s: Walking)
    ensures Counted(matcher, children, path, level, NumberOf(s.number, path), s,
                    Run<Walking>(Step(matcher), ChildWork(children, path, level, parent), s))
    decreases children
  {
    if children == [] {
      AddAssociates(s.sizes, ZERO, ZERO);
    } else {
      var below := path + [children[0].name];
      assert ParentOf(below) == path;
      RunChildren<Walking>(Step(matcher), children, path, level, parent, s);
      WalkNode(matcher, children[0], below, level + 1, parent, s);
      var s1 := Run<Walking>(Step(matcher), [Enter(children[0], below, level + 1, parent)], s);
      WalkChildren(matcher, children[1..], path, level, parent, s1);
      var s2 := Run<Walking>(Step(matcher), ChildWork(children[1..], path, level, parent), s1);
      CountedTogether(matcher, children, path, level, NumberOf(s.number, path), s, s1, s2);
    }
  }

  // ----- What the sizes are

  lemma UsedByParts(n: Node)
    ensures UsedBy(n) == SizeOf(n) + if n.Dir? then UsedByAll(n.children) else 0
  {
  }

  lemma UsedByFirst(children: seq<Node>)
    requires children != []
    ensures UsedByAll(children) == UsedBy(children[0]) + UsedByAll(children[1..])
  {
  }

  /** Below the Android directory everything is app data and nothing is media. */
  lemma {:induction false} AllApp(matcher: Matcher, children: seq<Node>, level: nat)
    ensures MeasureAll(matcher, children, level, 1) == Sizes(UsedByAll(children), 0, 0, 0, UsedByAll(children))
    decreases children
  {
    if children != [] {
      AllAppNode(matcher, children[0], level);
      AllApp(matcher, children[1..], level);
      UsedByFirst(children);
    }
  }

  lemma {:induction false} AllAppNode(matcher: Matcher, n: Node, level: nat)
    ensures Measure(matcher, n, level, 1) == Sizes(UsedBy(n), 0, 0, 0, UsedBy(n))
    decreases n
  {
    UsedByParts(n);
    if n.Dir? {
      AllApp(matcher, n.children, level + 1);
    }
  }

  /** Deeper than the top level nothing outside the Android directory is app data. */
  lemma {:induction false} NoApp(matcher: Matcher, children: seq<Node>, level: nat)
    requires level > 1
    ensures var r := MeasureAll(matcher, children, level, 0);
            r.app == 0 && r.total == UsedByAll(children) && MediaFits(r)
    decreases children
  {
    if children != [] {
      NoAppNode(matcher, children[0], level);
      NoApp(matcher, children[1..], level);
      UsedByFirst(children);
    }
  }

  lemma {:induction false} NoAppNode(matcher: Matcher, n: Node, level: nat)
    requires level > 1
    ensures var r := Measure(matcher, n, level, 0);
            r.app == 0 && r.total == UsedBy(n) && MediaFits(r)
    decreases n
  {
    UsedByParts(n);
    if n.Dir? {
      NoApp(matcher, n.children, level + 1);
    }
  }

  predicate MediaFits(r: Sizes) {
    r.audio >= 0 && r.video >= 0 && r.image >= 0 && r.app >= 0 && r.audio + r.video + r.image + r.app <= r.total
  }

  /** The size of everything strictly below the directories named Android among these. */
  function BelowAndroid(children: seq<Node>): nat {
    if children == [] then 0 else AndroidIn(children[0]) + BelowAndroid(children[1..])
  }

  function AndroidIn(n: Node): nat {
    if n.Dir? && n.name == "Android" then UsedByAll(n.children) else 0
  }

  lemma TopNode(matcher: Matcher, n: Node)
    ensures var r := Measure(matcher, n, 1, 0);
            r.app == AndroidIn(n) && r.total == UsedBy(n) && MediaFits(r)
  {
    UsedByParts(n);
    if n.Dir? {
      if n.name == "Android" {
        AllApp(matcher, n.children, 2);
      } else {
        NoApp(matcher, n.children, 2);
      }
    }
  }

  lemma {:induction false} TopLevel(matcher: Matcher, children: seq<Node>)
    ensures var r := MeasureAll(matcher, children, 1, 0);
            r.app == BelowAndroid(children) && r.total == UsedByAll(children) && MediaFits(r)
  {
    if children != [] {
      TopNode(matcher, children[0]);
      TopLevel(matcher, children[1..]);
      UsedByFirst(children);
    }
  }

  /**
    The app size is what lies strictly below the top-level Android directory,
    the total is the size of the whole tree, and the media classes and the app
    size are parts of it that do not overlap.
  */
  lemma ExternalSizes(matcher: Matcher, tree: Node)
    ensures var r := Measure(matcher, tree, 0, 0);
            && r.app == (if tree.Dir? then BelowAndroid(tree.children) else 0)
            && r.total == UsedBy(tree)
            && MediaFits(r)
  {
    UsedByParts(tree);
    if tree.Dir? {
      TopLevel(matcher, tree.children);
    }
  }

  // ----- What each media class holds

  /** The name has a dot, and the text after its last one has the class `aid`. */
  ghost predicate HasClass(matcher: Matcher, aid: int, name: string) {
    exists stem, ext :: EndsInExtension(name, stem, ext) && matcher(ext) == aid
  }

  ghost predicate EndsInExtension(name: string, stem: string, ext: string) {
    name == stem + "." + ext && '.' !in ext
  }

  lemma OneExtension(name: string, stem: string, ext: string, stem': string, ext': string)
    requires EndsInExtension(name, stem, ext) && EndsInExtension(name, stem', ext')
    ensures ext == ext'
  {
    assert name[|stem| + 1..] == ext && name[|stem'| + 1..] == ext';
    forall i | |stem| < i < |name| ensures name[i] != '.' {
      assert name[i] == ext[i - |stem| - 1];
    }
    forall i | |stem'| < i < |name| ensures name[i] != '.' {
      assert name[i] == ext'[i - |stem'| - 1];
    }
    assert name[|stem|] == '.' && name[|stem'|] == '.';
  }

  lemma ClassIsOfExtension(matcher: Matcher, aid: int, name: string)
    requires aid != 0
    ensures MediaClass(matcher, name) == aid <==> HasClass(matcher, aid, name)
  {
    forall stem, ext | EndsInExtension(name, stem, ext) ensures '.' in name {
      assert name[|stem|] == '.';
    }
    if Extension(name).Some? {
      var ext := Extension(name).value;
      var stem: string :| name == stem + "." + ext;
      assert EndsInExtension(name, stem, ext);
      if HasClass(matcher, aid, name) {
        var stem', ext' :| EndsInExtension(name, stem', ext') && matcher(ext') == aid;
        OneExtension(name, stem, ext, stem', ext');
      }
    }
  }

  lemma ClassesAreOfExtensions(matcher: Matcher, name: string)
    ensures MediaClass(matcher, name) == 1055 <==> HasClass(matcher, 1055, name)
    ensures MediaClass(matcher, name) == 1056 <==> HasClass(matcher, 1056, name)
    ensures MediaClass(matcher, name) == 1057 <==> HasClass(matcher, 1057, name)
  {
    ClassIsOfExtension(matcher, 1055, name);
    ClassIsOfExtension(matcher, 1056, name);
    ClassIsOfExtension(matcher, 1057, name);
  }

  /** The size of the regular files of a tree whose extension has the class `aid`. */
  ghost function ClassSize(matcher: Matcher, aid: int, n: Node): nat {
    match n
    case Leaf(name, kind, _) => if kind == Regular && HasClass(matcher, aid, name) then SizeOf(n) else 0
    case Dir(_, _, _, children) => ClassSizeAll(matcher, aid, children)
  }

  ghost function ClassSizeAll(matcher: Matcher, aid: int, children: seq<Node>): nat {
    if children == [] then 0 else ClassSize(matcher, aid, children[0]) + ClassSizeAll(matcher, aid, children[1..])
  }

  function WithoutAndroid(children: seq<Node>): seq<Node> {
    if children == [] then []
    else if children[0].Dir? && children[0].name == "Android" then WithoutAndroid(children[1..])
    else [children[0]] + WithoutAndroid(children[1..])
  }

  ghost predicate ByClass(matcher: Matcher, r: Sizes, size: int -> int) {
    r.audio == size(1055) && r.video == size(1056) && r.image == size(1057)
  }

  lemma {:induction false} MediaNode(matcher: Matcher, n: Node, level: nat)
    requires level > 1
    ensures ByClass(matcher, Measure(matcher, n, level, 0), aid => ClassSize(matcher, aid, n))
    decreases n
  {
    if n.Dir? {
      MediaNodes(matcher, n.children, level + 1);
    } else {
      ClassesAreOfExtensions(matcher, n.name);
    }
  }

  lemma {:induction false} MediaNodes(matcher: Matcher, children: seq<Node>, level: nat)
    requires level > 1
    ensures ByClass(matcher, MeasureAll(matcher, children, level, 0), aid => ClassSizeAll(matcher, aid, children))
    decreases children
  {
    if children != [] {
      MediaNode(matcher, children[0], level);
      MediaNodes(matcher, children[1..], level);
    }
  }

  lemma ClassFirst(matcher: Matcher, aid: int, c: Node, rest: seq<Node>)
    ensures ClassSizeAll(matcher, aid, [c] + rest) == ClassSize(matcher, aid, c) + ClassSizeAll(matcher, aid, rest)
  {
    assert ([c] + rest)[1..] == rest;
  }

  lemma {:induction false} TopMedia(matcher: Matcher, children: seq<Node>)
    ensures ByClass(matcher, MeasureAll(matcher, children, 1, 0),
                    aid => ClassSizeAll(matcher, aid, WithoutAndroid(children)))
  {
    if children != [] {
      var c := children[0];
      TopMedia(matcher, children[1..]);
      var kept := WithoutAndroid(children[1..]);
      ClassFirst(matcher, AID_MEDIA_AUDIO, c, kept);
      ClassFirst(matcher, AID_MEDIA_VIDEO, c, kept);
      ClassFirst(matcher, AID_MEDIA_IMAGE, c, kept);
      if c.Leaf? {
        ClassesAreOfExtensions(matcher, c.name);
      } else if c.name == "Android" {
        AllApp(matcher, c.children, 2);
      } else {
        MediaNodes(matcher, c.children, 2);
      }
    }
  }

  /** Each media size is that of the regular files of its class outside the top-level Android directory. */
  lemma MediaSizes(matcher: Matcher, tree: Node)
    ensures ByClass(matcher, Measure(matcher, tree, 0, 0),
                    aid => if tree.Leaf? then ClassSize(matcher, aid, tree)
                           else ClassSizeAll(matcher, aid, WithoutAndroid(tree.children)))
  {
    if tree.Dir? {
      TopMedia(matcher, tree.children);
    } else {
      ClassesAreOfExtensions(matcher, tree.name);
    }
  }
}
