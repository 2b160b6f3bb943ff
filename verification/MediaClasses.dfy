/**
  The external sizes measured with the generated matcher: a file counts as what
  the extension table says of it.
*/
module MediaClasses {
  import opened Fts
  import opened ExternalSize
  import M = MatchGen

  /** A C string without its terminator. */
  predicate IsCName(name: string) {
    forall c <- name :: c != M.NUL && c as int < 256
  }

  function Octets(name: string): (r: M.Bytes)
    requires IsCName(name)
    ensures r == name && M.CString(r)
  {
    if name == [] then []
    else
      assert name[0] in name && forall d <- name[1..] :: d in name;
      var c: M.Byte := name[0];
      var first: M.Bytes := [c];
      first + Octets(name[1..])
  }

  /** What the call of the generated function gives `getExternalSize`. */
  function Compiled(trie: M.Target): Matcher {
    (ext: string) =>
      if !IsCName(ext) then 0
      else
        match M.MatchExtension(trie, Octets(ext))
        case Returned(aid) => aid
        case _ => 0
  }

  /** The class of the last entry of the table that equals an extension up to case. */
  ghost function Listed(table: M.Table): Matcher {
    (ext: string) => if IsCName(ext) then Answer(table, M.Lowered(Octets(ext))) else 0
  }

  ghost function Answer(table: M.Table, v: M.Bytes): (aid: int)
    ensures M.IsAnswer(table, v, aid)
  {
    M.AnswerIs(table, v);
    var aid :| M.IsAnswer(table, v, aid);
    aid
  }

  ghost predicate Compiles(table: M.Table) {
    M.NulFreeTable(table) && M.ShortTable(table)
  }

  lemma ListedClass(table: M.Table, ext: string)
    requires Compiles(table)
    ensures M.InsertAll(M.Pairs(table)).Success?
    ensures IsCName(ext) ==>
              && M.MatchExtension(M.InsertAll(M.Pairs(table)).value, Octets(ext)) == M.Returned(Listed(table)(ext))
              && Compiled(M.InsertAll(M.Pairs(table)).value)(ext) == Listed(table)(ext)
  {
    M.CompilerCorrect(table, []);
    if IsCName(ext) {
      var v := M.Lowered(Octets(ext));
      M.CompilerCorrect(table, Octets(ext));
      var aid :| M.MatchExtension(M.InsertAll(M.Pairs(table)).value, Octets(ext)) == M.Returned(aid)
                 && M.IsAnswer(table, v, aid);
      M.OneAnswer(table, v, aid, Answer(table, v));
    }
  }

  /** Matchers that agree give a tree the same sizes. */
  ghost predicate AgreeOn(a: Matcher, b: Matcher) {
    forall ext: string :: a(ext) == b(ext)
  }

  lemma {:induction false} SameMeasure(a: Matcher, b: Matcher, n: Node, level: nat, above: int)
    requires AgreeOn(a, b)
    ensures Measure(a, n, level, above) == Measure(b, n, level, above)
    decreases n
  {
    assert MediaClass(a, n.name) == MediaClass(b, n.name);
    if n.Dir? {
      SameMeasures(a, b, n.children, level + 1, Below(n, level, above));
    }
  }

  lemma {:induction false} SameMeasures(a: Matcher, b: Matcher, children: seq<Node>, level: nat, above: int)
    requires AgreeOn(a, b)
    ensures MeasureAll(a, children, level, above) == MeasureAll(b, children, level, above)
    decreases children
  {
    if children != [] {
      SameMeasure(a, b, children[0], level, above);
      SameMeasures(a, b, children[1..], level, above);
    }
  }

  /**
    For every table of NUL-free extensions of at most five characters: the sizes
    measured with the generated function are those of the table itself, so each
    media size is that of the regular files outside the top-level Android
    directory whose lower-cased extension the table lists last under that class.
  */
  lemma MeasuredByTable(table: M.Table, tree: Node)
    requires Compiles(table)
    ensures M.InsertAll(M.Pairs(table)).Success?
    ensures var sizes := Measure(Compiled(M.InsertAll(M.Pairs(table)).value), tree, 0, 0);
            && sizes == Measure(Listed(table), tree, 0, 0)
            && ByClass(Listed(table), sizes,
                       aid => if tree.Leaf? then ClassSize(Listed(table), aid, tree)
                              else ClassSizeAll(Listed(table), aid, WithoutAndroid(tree.children)))
  {
    ListedClass(table, []);
    var compiled := Compiled(M.InsertAll(M.Pairs(table)).value);
    forall ext: string ensures compiled(ext) == Listed(table)(ext) {
      ListedClass(table, ext);
    }
    SameMeasure(compiled, Listed(table), tree, 0, 0);
    MediaSizes(Listed(table), tree);
  }
}
