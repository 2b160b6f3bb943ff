/**
  matchgen.py: a table of file extensions is put into a trie of nested dicts,
  and the trie is printed as nested C switches. The generated code is given the
  meaning C gives it, fall-through included, and shown to look the extension up.
*/
module MatchGen {
  import opened Wrappers

  type Byte = c: char | c as int < 256 witness 'a'
  type Bytes = seq<Byte>

  const NUL: Byte := '\0'

  function Lower(c: Byte): Byte {
    if 'A' <= c <= 'Z' then (c as int + 32) as char else c
  }

  function Upper(c: Byte): Byte {
    if 'a' <= c <= 'z' then (c as int - 32) as char else c
  }

  function Lowered(v: Bytes): (r: Bytes)
    ensures |r| == |v|
    ensures forall i :: 0 <= i < |v| ==> r[i] == Lower(v[i])
  {
    if v == [] then [] else [Lower(v[0])] + Lowered(v[1..])
  }

  // ----- The trie

  /** A nested dict, or what a dict of the last level has as default: a string. */
  datatype Target = Dict(level: nat, entries: map<Byte, Target>) | Text(aid: int)

  const DEPTH := 6

  /** What looking up a missing key creates. */
  function Default(level: nat): Target {
    if level + 1 < DEPTH then Dict(level + 1, map[]) else Text(0)
  }

  const EMPTY := Dict(0, map[])

  datatype Error = TypeError

  /** Walks down the characters of `v` and sets the class; indexing into a string is an error. */
  function Insert(target: Target, v: Bytes, aid: int): (r: Result<Target, Error>)
    decreases |v|
  {
    match target
    case Text(_) => Failure(TypeError)
    case Dict(level, entries) =>
      if v == [] then Success(Dict(level, entries[NUL := Text(aid)]))
      else
        match Insert(if v[0] in entries then entries[v[0]] else Default(level), v[1..], aid)
        case Failure(e) => Failure(e)
        case Success(below) => Success(Dict(level, entries[v[0] := below]))
  }

  /** One extension and its class. */
  type Pair = (Bytes, int)

  function InsertAll(pairs: seq<Pair>): (r: Result<Target, Error>) {
    if pairs == [] then Success(EMPTY)
    else
      var last := |pairs| - 1;
      match InsertAll(pairs[..last])
      case Failure(e) => Failure(e)
      case Success(trie) => Insert(trie, Lowered(pairs[last].0), pairs[last].1)
  }

  /** The table: for every class its extensions. */
  type Table = seq<(int, seq<Bytes>)>

  function PairsOf(aid: int, exts: seq<Bytes>): seq<Pair> {
    if exts == [] then [] else PairsOf(aid, exts[..|exts| - 1]) + [(exts[|exts| - 1], aid)]
  }

  function Pairs(table: Table): seq<Pair> {
    if table == [] then []
    else
      var last := |table| - 1;
      Pairs(table[..last]) + PairsOf(table[last].0, table[last].1)
  }

  /** The outer loop that fills the trie: one class after the other. */
  method BuildTrie(table: Table) returns (r: Result<Target, Error>)
    ensures r == InsertAll(Pairs(table))
  {
    var trie := EMPTY;
    for t := 0 to |table|
      invariant InsertAll(Pairs(table[..t])) == Success(trie)
    {
      r := AddExtensions(trie, table[t].0, table[t].1, Pairs(table[..t]));
      assert table[..t + 1][..t] == table[..t];
      if r.Failure? {
        FirstClasses(table, t + 1);
        FailsForGood(Pairs(table[..t + 1]), Pairs(table));
        return;
      }
      trie := r.value;
    }
    assert table[..|table|] == table;
    return Success(trie);
  }

  /** The inner loop: all extensions of one class. */
  method AddExtensions(start: Target, aid: int, exts: seq<Bytes>, ghost before: seq<Pair>)
    returns (r: Result<Target, Error>)
    requires InsertAll(before) == Success(start)
    ensures r == InsertAll(before + PairsOf(aid, exts))
  {
    var trie := start;
    assert before + [] == before;
    for n := 0 to |exts|
      invariant InsertAll(before + PairsOf(aid, exts[..n])) == Success(trie)
    {
      r := Insert(trie, Lowered(exts[n]), aid);
      OneMore(aid, exts, n, before, trie);
      if r.Failure? {
        FirstExtensions(aid, exts, n + 1);
        FailsForGood(before + PairsOf(aid, exts[..n + 1]), before + PairsOf(aid, exts));
        return;
      }
      trie := r.value;
    }
    assert exts[..|exts|] == exts;
    return Success(trie);
  }

  lemma OneMore(aid: int, exts: seq<Bytes>, n: nat, before: seq<Pair>, trie: Target)
    requires n < |exts| && InsertAll(before + PairsOf(aid, exts[..n])) == Success(trie)
    ensures InsertAll(before + PairsOf(aid, exts[..n + 1])) == Insert(trie, Lowered(exts[n]), aid)
  {
    var done, next := before + PairsOf(aid, exts[..n]), before + PairsOf(aid, exts[..n + 1]);
    assert exts[..n + 1][..n] == exts[..n];
    assert next[..|next| - 1] == done && next[|next| - 1] == (exts[n], aid);
  }

  /** The generator does not recover from an error. */
  lemma {:induction false} FailsForGood(a: seq<Pair>, b: seq<Pair>)
    requires a <= b && InsertAll(a).Failure?
    ensures InsertAll(b) == InsertAll(a)
  {
    if a != b {
      assert a <= b[..|b| - 1];
      FailsForGood(a, b[..|b| - 1]);
    }
  }

  lemma {:induction false} FirstExtensions(aid: int, exts: seq<Bytes>, n: nat)
    requires n <= |exts|
    ensures PairsOf(aid, exts[..n]) <= PairsOf(aid, exts)
  {
    if n < |exts| {
      assert exts[..|exts| - 1][..n] == exts[..n];
      FirstExtensions(aid, exts[..|exts| - 1], n);
    } else {
      assert exts[..n] == exts;
    }
  }

  lemma {:induction false} FirstClasses(table: Table, t: nat)
    requires t <= |table|
    ensures Pairs(table[..t]) <= Pairs(table)
  {
    if t < |table| {
      assert table[..|table| - 1][..t] == table[..t];
      FirstClasses(table[..|table| - 1], t);
    } else {
      assert table[..t] == table;
    }
  }

  // ----- What the trie says

  /** Dicts nest one level at a time, and hold classes exactly under NUL. */
  ghost predicate Proper(target: Target, level: nat)
    decreases DEPTH - level
  {
    && level < DEPTH && target.Dict? && target.level == level
    && (forall k <- target.entries.Keys ::
          && Lower(k) == k
          && (if k == NUL then target.entries[k].Text? else level + 1 < DEPTH && Proper(target.entries[k], level + 1)))
  }

  ghost function Find(target: Target, v: Bytes): Option<int>
    decreases |v|
  {
    if target.Text? then None
    else if v == [] then
      if NUL in target.entries && target.entries[NUL].Text? then Some(target.entries[NUL].aid) else None
    else if v[0] in target.entries then Find(target.entries[v[0]], v[1..])
    else None
  }

  ghost predicate Plain(v: Bytes) {
    forall c <- v :: c != NUL && Lower(c) == c
  }

  /** The place a character leads to is a proper trie again. */
  lemma BelowIsProper(target: Target, level: nat, c: Byte)
    requires Proper(target, level) && c != NUL && level + 1 < DEPTH
    ensures Proper(if c in target.entries then target.entries[c] else Default(level), level + 1)
  {
  }

  lemma PlainTail(v: Bytes)
    requires Plain(v) && v != []
    ensures Plain(v[1..]) && v[0] != NUL && Lower(v[0]) == v[0]
  {
    assert v[0] in v && forall c <- v[1..] :: c in v;
  }

  /** Putting `below'` in the place of `below` changes the answer for `v` only. */
  lemma FindChanged(target: Target, level: nat, v: Bytes, below: Target, below': Target, aid: int, w: Bytes)
    requires target.Dict? && v != [] && v[0] != NUL
    requires below == if v[0] in target.entries then target.entries[v[0]] else Default(level)
    requires w != [] ==> Find(below', w[1..]) == if w[1..] == v[1..] then Some(aid) else Find(below, w[1..])
    ensures Find(Dict(level, target.entries[v[0] := below']), w) == if w == v then Some(aid) else Find(target, w)
  {
    if w != [] {
      assert w == [w[0]] + w[1..] && v == [v[0]] + v[1..];
    }
  }

  lemma ProperChanged(target: Target, level: nat, c: Byte, below': Target)
    requires Proper(target, level) && c != NUL && Lower(c) == c && level + 1 < DEPTH && Proper(below', level + 1)
    ensures Proper(Dict(level, target.entries[c := below']), level)
  {
  }

  /** Inserting works exactly for extensions of at most five characters, and changes one answer. */
  lemma {:induction false} InsertWorks(target: Target, level: nat, v: Bytes, aid: int)
    requires Proper(target, level) && Plain(v)
    ensures var r := Insert(target, v, aid);
            && (r.Success? <==> |v| < DEPTH - level)
            && (r.Success? ==>
                  && Proper(r.value, level)
                  && forall w | Plain(w) :: Find(r.value, w) == if w == v then Some(aid) else Find(target, w))
    decreases |v|
  {
    if v != [] {
      var below := if v[0] in target.entries then target.entries[v[0]] else Default(level);
      PlainTail(v);
      if level + 1 < DEPTH {
        BelowIsProper(target, level, v[0]);
        InsertWorks(below, level + 1, v[1..], aid);
        var inner := Insert(below, v[1..], aid);
        if inner.Success? {
          ProperChanged(target, level, v[0], inner.value);
          forall w | Plain(w)
            ensures Find(Dict(level, target.entries[v[0] := inner.value]), w)
                    == if w == v then Some(aid) else Find(target, w)
          {
            if w != [] {
              PlainTail(w);
            }
            FindChanged(target, level, v, below, inner.value, aid, w);
          }
        }
      }
    }
  }

  // ----- The generated code

  datatype Stmt = Label(c: Byte) | Return(aid: int) | Switch(index: nat, body: seq<Stmt>) | Break

  /** `dump`: a switch over the keys in sorted order, and a break unless it is the outermost. */
  function Dump(target: Target, index: nat): seq<Stmt>
    requires index < DEPTH
    decreases DEPTH - index, 2, 0
  {
    if target.Text? then []
    else [Switch(index, Cases(target, index, 0))] + (if index > 0 then [Break] else [])
  }

  /** The cases for all keys from the `n`-th byte on. */
  function Cases(target: Target, index: nat, n: nat): seq<Stmt>
    requires index < DEPTH && target.Dict?
    decreases DEPTH - index, 1, 256 - n
  {
    if n >= 256 then []
    else
      (if n as char in target.entries then Case(target, index, n as char) else []) + Cases(target, index, n + 1)
  }

  function Case(target: Target, index: nat, k: Byte): seq<Stmt>
    requires index < DEPTH && target.Dict? && k in target.entries
    decreases DEPTH - index, 0, 0
  {
    if k == NUL then [Label(NUL)] + (if target.entries[k].Text? then [Return(target.entries[k].aid)] else [])
    else
      (if Upper(k) != k then [Label(k), Label(Upper(k))] else [Label(k)])
      + (if index + 1 < DEPTH then Dump(target.entries[k], index + 1) else [])
  }

  /** The body of MatchExtension. */
  function Generate(trie: Target): seq<Stmt> {
    Dump(trie, 0) + [Return(0)]
  }

  // ----- What the code means

  datatype Outcome = FellOut | Broke | Returned(aid: int) | OutOfBounds

  function Size(code: seq<Stmt>): nat {
    if code == [] then 0
    else (if code[0].Switch? then 1 + Size(code[0].body) else 1) + Size(code[1..])
  }

  /** Where a switch on `c` jumps to: behind the first label for it, or to the end. */
  function Jump(body: seq<Stmt>, c: Byte): (r: seq<Stmt>)
    ensures Size(r) <= Size(body)
  {
    if body == [] then []
    else if body[0] == Label(c) then body[1..]
    else Jump(body[1..], c)
  }

  /** Running code on a C string: the terminator may be read, what is behind it may not. */
  function Exec(code: seq<Stmt>, s: Bytes): Outcome
    decreases Size(code)
  {
    if code == [] then FellOut
    else
      match code[0]
      case Label(_) => Exec(code[1..], s)
      case Return(aid) => Returned(aid)
      case Break => Broke
      case Switch(i, body) =>
        if i > |s| then OutOfBounds
        else
          match Exec(Jump(body, if i < |s| then s[i] else NUL), s)
          case Returned(aid) => Returned(aid)
          case OutOfBounds => OutOfBounds
          case _ => Exec(code[1..], s)
  }

  /** The class a call of the generated function returns. */
  function MatchExtension(trie: Target, s: Bytes): Outcome {
    Exec(Generate(trie), s)
  }

  // ----- The generated code looks the extension up

  function Read(s: Bytes, i: nat): Byte
    requires i <= |s|
  {
    if i < |s| then s[i] else NUL
  }

  lemma {:induction false} JumpOver(a: seq<Stmt>, b: seq<Stmt>, c: Byte)
    requires forall st <- a :: st != Label(c)
    ensures Jump(a + b, c) == Jump(b, c)
  {
    if a == [] {
      assert a + b == b;
    } else {
      assert a[0] in a && forall st <- a[1..] :: st in a;
      JumpOver(a[1..], b, c);
      assert (a + b)[1..] == a[1..] + b;
    }
  }

  /** The labels of one case are the key in lower and in upper case. */
  lemma CaseLabels(target: Target, level: nat, k: Byte, c: Byte)
    requires Proper(target, level) && k in target.entries
    ensures Label(c) in Case(target, level, k) <==> Lower(c) == k
  {
  }

  /** What is executed when the switch jumps into the case of `k`. */
  function CaseBody(target: Target, level: nat, k: Byte): seq<Stmt>
    requires Proper(target, level) && k in target.entries
  {
    if k == NUL then [Return(target.entries[k].aid)] else Dump(target.entries[k], level + 1)
  }

  /** Jumping finds the case of the lower-cased character, or nothing. */
  lemma {:induction false} JumpToCase(target: Target, level: nat, n: nat, c: Byte)
    requires Proper(target, level) && n <= Lower(c) as int
    ensures var k, jump := Lower(c), Jump(Cases(target, level, n), c);
            if k in target.entries then
              exists labels: seq<Stmt>, rest: seq<Stmt> :: Lands(labels, jump, CaseBody(target, level, k), rest)
            else jump == []
    decreases 256 - n
  {
    var k := Lower(c);
    var here := if n as char in target.entries then Case(target, level, n as char) else [];
    assert Cases(target, level, n) == here + Cases(target, level, n + 1);
    if n == k as int {
      assert n as char == k;
      NoLaterCase(target, level, n + 1, c);
      if k in target.entries {
        LandInCase(target, level, k, c, Cases(target, level, n + 1));
      } else {
        JumpOver(here, Cases(target, level, n + 1), c);
      }
    } else {
      if n as char in target.entries {
        CaseLabels(target, level, n as char, c);
      }
      JumpOver(here, Cases(target, level, n + 1), c);
      assert Jump(Cases(target, level, n), c) == Jump(Cases(target, level, n + 1), c);
      JumpToCase(target, level, n + 1, c);
    }
  }

  lemma {:induction false} NoLaterCase(target: Target, level: nat, n: nat, c: Byte)
    requires Proper(target, level) && n > Lower(c) as int
    ensures Jump(Cases(target, level, n), c) == []
    decreases 256 - n
  {
    if n < 256 {
      var here := if n as char in target.entries then Case(target, level, n as char) else [];
      if n as char in target.entries {
        CaseLabels(target, level, n as char, c);
      }
      JumpOver(here, Cases(target, level, n + 1), c);
      NoLaterCase(target, level, n + 1, c);
    }
  }

  /** A jump lands on at most labels, then the body of a case, then other cases. */
  ghost predicate Lands(labels: seq<Stmt>, jump: seq<Stmt>, body: seq<Stmt>, rest: seq<Stmt>) {
    jump == labels + (body + rest) && forall st <- labels :: st.Label?
  }

  lemma LandInCase(target: Target, level: nat, k: Byte, c: Byte, rest: seq<Stmt>)
    requires Proper(target, level) && k in target.entries && Lower(c) == k
    ensures exists labels: seq<Stmt>, rest': seq<Stmt> ::
              Lands(labels, Jump(Case(target, level, k) + rest, c), CaseBody(target, level, k), rest')
  {
    var body := CaseBody(target, level, k);
    var code := Case(target, level, k) + rest;
    if Upper(k) != k && c == k {
      assert code == [Label(k)] + ([Label(Upper(k))] + (body + rest));
      assert Lands([Label(Upper(k))], Jump(code, c), body, rest);
    } else if Upper(k) != k {
      assert code == [Label(k)] + ([Label(Upper(k))] + (body + rest));
      assert Jump(code, c) == Jump([Label(Upper(k))] + (body + rest), c) == body + rest;
      assert Lands([], Jump(code, c), body, rest);
    } else {
      assert code == [Label(k)] + (body + rest);
      assert Lands([], Jump(code, c), body, rest);
    }
  }

  lemma {:induction false} SkipLabels(labels: seq<Stmt>, code: seq<Stmt>, s: Bytes)
    requires forall st <- labels :: st.Label?
    ensures Exec(labels + code, s) == Exec(code, s)
  {
    if labels == [] {
      assert labels + code == code;
    } else {
      SkipLabels(labels[1..], code, s);
      assert (labels + code)[1..] == labels[1..] + code;
    }
  }

  /** A class is returned when the trie has one; otherwise the switch is left normally. */
  ghost predicate Answers(outcome: Outcome, found: Option<int>) {
    if found.Some? then outcome == Returned(found.value) else outcome == FellOut || outcome == Broke
  }

  ghost predicate CString(s: Bytes) {
    NUL !in s
  }

  lemma {:induction false} SwitchAnswers(target: Target, level: nat, s: Bytes)
    requires Proper(target, level) && CString(s) && level <= |s|
    ensures Answers(Exec(Jump(Cases(target, level, 0), Read(s, level)), s), Find(target, Lowered(s[level..])))
    decreases DEPTH - level
  {
    var c := Read(s, level);
    var k := Lower(c);
    var v := Lowered(s[level..]);
    JumpToCase(target, level, 0, c);
    if k in target.entries {
      var jump, body := Jump(Cases(target, level, 0), c), CaseBody(target, level, k);
      var labels: seq<Stmt>, rest: seq<Stmt> :| Lands(labels, jump, body, rest);
      SkipLabels(labels, body + rest, s);
      if level < |s| {
        assert s[level] in s && k != NUL;
        assert s[level..][1..] == s[level + 1..] && v[1..] == Lowered(s[level + 1..]);
        var below := target.entries[k];
        SwitchAnswers(below, level + 1, s);
        var switch := Switch(level + 1, Cases(below, level + 1, 0));
        assert body + rest == [switch] + ([Break] + rest);
        assert Exec([Break] + rest, s) == Broke;
      }
    }
  }

  /** The generated function returns what the trie holds for the lower-cased string, or 0. */
  lemma GeneratedCodeFinds(trie: Target, s: Bytes)
    requires Proper(trie, 0) && CString(s)
    ensures var found := Find(trie, Lowered(s));
            MatchExtension(trie, s) == Returned(if found.Some? then found.value else 0)
  {
    SwitchAnswers(trie, 0, s);
    assert s[0..] == s;
    var switch := Switch(0, Cases(trie, 0, 0));
    assert Generate(trie) == [switch] + [Return(0)];
    assert Exec([Return(0)], s) == Returned(0);
  }

  // ----- Compiler correctness

  /** The class a table gives to a lower-case extension: the last one inserted. */
  function ClassOf(pairs: seq<Pair>, v: Bytes): Option<int> {
    if pairs == [] then None
    else
      var last := |pairs| - 1;
      if Lowered(pairs[last].0) == v then Some(pairs[last].1) else ClassOf(pairs[..last], v)
  }

  ghost predicate NulFree(pairs: seq<Pair>) {
    forall p <- pairs :: CString(p.0)
  }

  lemma LoweredIsPlain(v: Bytes)
    requires CString(v)
    ensures Plain(Lowered(v))
  {
  }

  lemma {:induction false} TrieHoldsTable(pairs: seq<Pair>)
    requires NulFree(pairs)
    ensures InsertAll(pairs).Success? <==> forall p <- pairs :: |p.0| < DEPTH
    ensures InsertAll(pairs).Success? ==>
              && Proper(InsertAll(pairs).value, 0)
              && forall v | Plain(v) :: Find(InsertAll(pairs).value, v) == ClassOf(pairs, v)
  {
    if pairs != [] {
      var last := |pairs| - 1;
      assert pairs == pairs[..last] + [pairs[last]];
      assert forall p <- pairs[..last] :: p in pairs;
      TrieHoldsTable(pairs[..last]);
      if InsertAll(pairs[..last]).Success? {
        assert pairs[last] in pairs;
        LoweredIsPlain(pairs[last].0);
        InsertWorks(InsertAll(pairs[..last]).value, 0, Lowered(pairs[last].0), pairs[last].1);
      }
    }
  }

  // ----- The table itself

  /** The n-th extension of the t-th class. */
  ghost predicate IsEntry(table: Table, t: nat, n: nat) {
    t < |table| && n < |table[t].1|
  }

  /** How many extensions the first `t` classes have. */
  function Before(table: Table, t: nat): nat
    requires t <= |table|
  {
    if t == 0 then 0 else Before(table, t - 1) + |table[t - 1].1|
  }

  lemma {:induction false} PairsOfInOrder(aid: int, exts: seq<Bytes>)
    ensures |PairsOf(aid, exts)| == |exts|
    ensures forall n | 0 <= n < |exts| :: PairsOf(aid, exts)[n] == (exts[n], aid)
  {
    if exts != [] {
      PairsOfInOrder(aid, exts[..|exts| - 1]);
    }
  }

  lemma {:induction false} BeforeOfFirst(table: Table, t: nat, k: nat)
    requires t <= k <= |table|
    ensures Before(table[..k], t) == Before(table, t)
    decreases t
  {
    if t > 0 {
      BeforeOfFirst(table, t - 1, k);
    }
  }

  /** Where the entry is inserted, and that it is inserted there with its class. */
  ghost predicate InsertedAt(table: Table, pairs: seq<Pair>, t: nat, n: nat)
    requires IsEntry(table, t, n)
  {
    Before(table, t) + n < |pairs| && pairs[Before(table, t) + n] == (table[t].1[n], table[t].0)
  }

  ghost predicate IsPlace(table: Table, k: nat) {
    exists t: nat, n: nat :: IsEntry(table, t, n) && k == Before(table, t) + n
  }

  /** The pairs inserted are the entries of the table, in the order of the table, and nothing else. */
  lemma {:induction false} PairsInOrder(table: Table)
    ensures |Pairs(table)| == Before(table, |table|)
    ensures forall t: nat, n: nat | IsEntry(table, t, n) :: InsertedAt(table, Pairs(table), t, n)
    ensures forall k: nat | k < |Pairs(table)| :: IsPlace(table, k)
    decreases |table|
  {
    if table != [] {
      var last := |table| - 1;
      var first, own := table[..last], PairsOf(table[last].0, table[last].1);
      PairsInOrder(first);
      PairsOfInOrder(table[last].0, table[last].1);
      forall t: nat | t <= last ensures Before(first, t) == Before(table, t) {
        BeforeOfFirst(table, t, last);
      }
      forall t: nat, n: nat | IsEntry(table, t, n) ensures InsertedAt(table, Pairs(table), t, n) {
        if t < last {
          assert IsEntry(first, t, n) && InsertedAt(first, Pairs(first), t, n);
        }
      }
      forall k: nat | k < |Pairs(table)| ensures IsPlace(table, k) {
        if k < |Pairs(first)| {
          assert IsPlace(first, k);
          var t: nat, n: nat :| IsEntry(first, t, n) && k == Before(first, t) + n;
          assert IsEntry(table, t, n);
        } else {
          assert IsEntry(table, last, k - |Pairs(first)|);
        }
      }
    }
  }

  ghost predicate Lists(table: Table, t: nat, n: nat, v: Bytes) {
    IsEntry(table, t, n) && Lowered(table[t].1[n]) == v
  }

  /** The class of the last entry that is, in lower case, this string; 0 when there is none. */
  ghost predicate IsAnswer(table: Table, v: Bytes, aid: int) {
    || (exists t: nat, n: nat ::
          && Lists(table, t, n, v) && aid == table[t].0
          && forall t': nat, n': nat | Lists(table, t', n', v) :: Before(table, t') + n' <= Before(table, t) + n)
    || (aid == 0 && forall t: nat, n: nat :: !Lists(table, t, n, v))
  }

  /** A string has one answer. */
  lemma OneAnswer(table: Table, v: Bytes, a: int, b: int)
    requires IsAnswer(table, v, a) && IsAnswer(table, v, b)
    ensures a == b
  {
    PairsInOrder(table);
    if exists t: nat, n: nat :: Lists(table, t, n, v) {
      var t: nat, n: nat :| Lists(table, t, n, v) && a == table[t].0
        && forall t': nat, n': nat | Lists(table, t', n', v) :: Before(table, t') + n' <= Before(table, t) + n;
      var u: nat, m: nat :| Lists(table, u, m, v) && b == table[u].0
        && forall t': nat, n': nat | Lists(table, t', n', v) :: Before(table, t') + n' <= Before(table, u) + m;
      assert InsertedAt(table, Pairs(table), t, n) && InsertedAt(table, Pairs(table), u, m);
    }
  }

  /** The last pair with this string. */
  lemma {:induction false} LastPair(pairs: seq<Pair>, v: Bytes) returns (k: nat)
    requires ClassOf(pairs, v).Some?
    ensures k < |pairs| && Lowered(pairs[k].0) == v && ClassOf(pairs, v) == Some(pairs[k].1)
    ensures forall j | k < j < |pairs| :: Lowered(pairs[j].0) != v
  {
    var last := |pairs| - 1;
    if Lowered(pairs[last].0) == v {
      k := last;
    } else {
      k := LastPair(pairs[..last], v);
    }
  }

  lemma {:induction false} NoPair(pairs: seq<Pair>, v: Bytes)
    requires ClassOf(pairs, v).None?
    ensures forall p <- pairs :: Lowered(p.0) != v
  {
    if pairs != [] {
      NoPair(pairs[..|pairs| - 1], v);
    }
  }

  function AnswerOf(table: Table, v: Bytes): int {
    var aid := ClassOf(Pairs(table), v);
    if aid.Some? then aid.value else 0
  }

  lemma AnswerIs(table: Table, v: Bytes)
    ensures IsAnswer(table, v, AnswerOf(table, v))
  {
    var pairs := Pairs(table);
    PairsInOrder(table);
    if ClassOf(pairs, v).Some? {
      var k := LastPair(pairs, v);
      assert IsPlace(table, k);
      var t: nat, n: nat :| IsEntry(table, t, n) && k == Before(table, t) + n;
      assert InsertedAt(table, pairs, t, n);
      forall t': nat, n': nat | Lists(table, t', n', v) ensures Before(table, t') + n' <= k {
        assert InsertedAt(table, pairs, t', n');
      }
      assert Lists(table, t, n, v);
    } else {
      NoPair(pairs, v);
      forall t: nat, n: nat | IsEntry(table, t, n) ensures Lowered(table[t].1[n]) != v {
        assert InsertedAt(table, pairs, t, n);
        assert pairs[Before(table, t) + n] in pairs;
      }
    }
  }

  /** No extension in the table has a NUL. */
  ghost predicate NulFreeTable(table: Table) {
    forall t: nat, n: nat | IsEntry(table, t, n) :: CString(table[t].1[n])
  }

  ghost predicate ShortTable(table: Table) {
    forall t: nat, n: nat | IsEntry(table, t, n) :: |table[t].1[n]| <= 5
  }

  lemma TableOfPairs(table: Table)
    ensures NulFree(Pairs(table)) <==> NulFreeTable(table)
    ensures (forall p <- Pairs(table) :: |p.0| < DEPTH) <==> ShortTable(table)
  {
    var pairs := Pairs(table);
    PairsInOrder(table);
    forall p <- pairs
      ensures exists t: nat, n: nat :: IsEntry(table, t, n) && p.0 == table[t].1[n]
    {
      var k: nat :| k < |pairs| && pairs[k] == p;
      assert IsPlace(table, k);
      var t: nat, n: nat :| IsEntry(table, t, n) && k == Before(table, t) + n;
      assert InsertedAt(table, pairs, t, n);
    }
    forall t: nat, n: nat | IsEntry(table, t, n) ensures (table[t].1[n], table[t].0) in pairs {
      assert InsertedAt(table, pairs, t, n);
    }
  }

  /**
    For any table of NUL-free extensions: the generator succeeds exactly when no
    extension is longer than five characters, and the function it generates
    returns the class of the last entry that equals the string up to case, and 0
    when there is none, without ever reading past the string's terminator.
  */
  lemma CompilerCorrect(table: Table, s: Bytes)
    requires NulFreeTable(table) && CString(s)
    ensures var trie := InsertAll(Pairs(table));
            && (trie.Success? <==> ShortTable(table))
            && (trie.Success? ==>
                  exists aid :: MatchExtension(trie.value, s) == Returned(aid) && IsAnswer(table, Lowered(s), aid))
  {
    TableOfPairs(table);
    TrieHoldsTable(Pairs(table));
    if InsertAll(Pairs(table)).Success? {
      GeneratedCodeFinds(InsertAll(Pairs(table)).value, s);
      LoweredIsPlain(s);
      AnswerIs(table, Lowered(s));
      assert MatchExtension(InsertAll(Pairs(table)).value, s) == Returned(AnswerOf(table, Lowered(s)));
    }
  }

  /** A six-character extension makes the generator fail: the last dict's values are strings. */
  lemma LongExtensionFails()
    ensures InsertAll([("mpeg21", 1056)]).Failure?
  {
    var pairs: seq<Pair> := [("mpeg21", 1056)];
    assert pairs[0] in pairs && |pairs[0].0| == DEPTH;
    TrieHoldsTable(pairs);
  }

  /** No extension, in any spelling, is listed under two classes. */
  ghost predicate Consistent(pairs: seq<Pair>) {
    forall p <- pairs, q <- pairs | Lowered(p.0) == Lowered(q.0) :: p.1 == q.1
  }

  lemma {:induction false} ClassIsListed(pairs: seq<Pair>, v: Bytes)
    ensures ClassOf(pairs, v).Some? <==> exists p <- pairs :: Lowered(p.0) == v
    ensures ClassOf(pairs, v).Some? ==> exists p <- pairs :: Lowered(p.0) == v && p.1 == ClassOf(pairs, v).value
  {
    if pairs != [] {
      var last := |pairs| - 1;
      assert pairs == pairs[..last] + [pairs[last]];
      ClassIsListed(pairs[..last], v);
    }
  }

  /** When no extension has two classes, the order of insertion does not matter. */
  lemma OrderDoesNotMatter(one: seq<Pair>, other: seq<Pair>, s: Bytes)
    requires Consistent(one) && forall p :: p in one <==> p in other
    requires NulFree(one) && CString(s) && InsertAll(one).Success?
    ensures InsertAll(other).Success?
    ensures MatchExtension(InsertAll(one).value, s) == MatchExtension(InsertAll(other).value, s)
  {
    TrieHoldsTable(one);
    TrieHoldsTable(other);
    var v := Lowered(s);
    LoweredIsPlain(s);
    ClassIsListed(one, v);
    ClassIsListed(other, v);
    GeneratedCodeFinds(InsertAll(one).value, s);
    GeneratedCodeFinds(InsertAll(other).value, s);
  }
}
