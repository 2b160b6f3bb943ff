/**
  The bounce loop of `freeCache` as a state machine: one tracker is active, the
  others wait in the queue, and every iteration swaps the active tracker, drops
  it, or purges its last item. The properties here hold of every run; FreeCache
  shows that the loop over the heap and the tracker objects is such a run.
*/
module Bounce {
  import opened Wrappers
  import opened CacheItems

  // ----- The cache ratio

  const OVER_QUOTA := 10000
  const DEFAULT_QUOTA := 67108864

  /** Division as in C++, rounding towards zero. */
  function TruncatingDiv(a: int, b: int): (q: int)
    requires b != 0
    ensures a >= 0 && b > 0 ==> b * q <= a < b * q + b
    ensures a < 0 && b > 0 ==> b * q - b < a <= b * q
  {
    if a >= 0 then a / b else -((-a) / b)
  }

  /** The conversion from int64_t to int. */
  function Narrow(x: int): (r: int)
    ensures -0x8000_0000 <= r < 0x8000_0000
    ensures -0x8000_0000 <= x < 0x8000_0000 ==> r == x
  {
    (x + 0x8000_0000) % 0x1_0000_0000 - 0x8000_0000
  }

  /** `getCacheRatio`. */
  function Ratio(used: int, quota: int): int {
    if quota == 0 then 0 else Narrow(TruncatingDiv(used * OVER_QUOTA, quota))
  }

  function Quotient(used: int, quota: int): int
    requires quota != 0
  {
    TruncatingDiv(used * OVER_QUOTA, quota)
  }

  /** The low 32 bits of the quotient, read as an int, reach OVER_QUOTA. */
  predicate LowBitsReach(used: int, quota: int)
    requires quota != 0
  {
    OVER_QUOTA <= Quotient(used, quota) % 0x1_0000_0000 < 0x8000_0000
  }

  lemma NarrowReaches(x: int)
    ensures Narrow(x) >= OVER_QUOTA <==> OVER_QUOTA <= x % 0x1_0000_0000 < 0x8000_0000
  {
    var q, r := x / 0x1_0000_0000, x % 0x1_0000_0000;
    assert x + 0x8000_0000 == q * 0x1_0000_0000 + (r + 0x8000_0000);
    if r < 0x8000_0000 {
      RemainderIs(q, r + 0x8000_0000);
    } else {
      RemainderIs(q + 1, r - 0x8000_0000);
    }
  }

  lemma RemainderIs(q: int, r: int)
    requires 0 <= r < 0x1_0000_0000
    ensures (q * 0x1_0000_0000 + r) % 0x1_0000_0000 == r
  {
  }

  /** Without the narrowing the quotient reaches OVER_QUOTA exactly when the quota is used up. */
  lemma QuotientMeetsQuota(used: int, quota: int)
    requires quota > 0
    ensures Quotient(used, quota) >= OVER_QUOTA <==> used >= quota
    ensures used >= 0 ==> Quotient(used, quota) >= 0
  {
    var q := Quotient(used, quota);
    if used >= quota {
      assert quota * OVER_QUOTA < quota * q + quota == quota * (q + 1);
      LessByProduct(quota, OVER_QUOTA, q + 1);
    } else {
      LessByProduct(quota, q, OVER_QUOTA);
    }
    if used >= 0 {
      LessByProduct(quota, -1, q);
    }
  }

  /**
    Exactly when the ratio says whether the quota is used up, for every use and
    every positive quota. A use below the quota is read correctly unless it is
    negative; any other depends on the low 32 bits of the quotient.
  */
  lemma RatioMeetsQuota(used: int, quota: int)
    requires quota > 0
    ensures used >= 0 ==>
              ((Ratio(used, quota) >= OVER_QUOTA <==> used >= quota) <==> (used < quota || LowBitsReach(used, quota)))
    ensures used < 0 ==>
              ((Ratio(used, quota) >= OVER_QUOTA <==> used >= quota) <==> !LowBitsReach(used, quota))
  {
    NarrowReaches(Quotient(used, quota));
    QuotientMeetsQuota(used, quota);
  }

  /** In particular a quotient that fits an int is always read correctly. */
  lemma FittingRatio(used: int, quota: int)
    requires quota > 0 && -0x8000_0000 <= Quotient(used, quota) < 0x8000_0000
    ensures Ratio(used, quota) >= OVER_QUOTA <==> used >= quota
  {
    QuotientMeetsQuota(used, quota);
  }

  /** An overflow can hide a use over the quota, but it takes a negative use to invent one. */
  lemma OverMeansUsedUp(used: int, quota: int)
    requires used >= 0 && Ratio(used, quota) >= OVER_QUOTA
    ensures used >= quota
  {
    if quota > 0 {
      RatioMeetsQuota(used, quota);
    }
  }

  lemma LessByProduct(k: int, a: int, b: int)
    requires k > 0 && k * a < k * b
    ensures a < b
  {
  }

  /** Both misreadings: a use far over its quota that looks under it, a negative one that looks over it. */
  lemma OverflowMisreads()
    ensures Ratio(214749, 1) < 0 && Ratio(-300000, 1) >= OVER_QUOTA
  {
  }

  // ----- Sums over the trackers

  ghost function Sum(m: map<int, int>): int {
    if exists u :: u in m.Keys then
      var u :| u in m.Keys;
      m[u] + Sum(m - {u})
    else 0
  }

  lemma {:induction false} SumRemove(m: map<int, int>, u: int)
    requires u in m
    ensures Sum(m) == m[u] + Sum(m - {u})
    decreases |m|
  {
    var v :| v in m.Keys && Sum(m) == m[v] + Sum(m - {v});
    if u != v {
      SumRemove(m - {v}, u);
      SumRemove(m - {u}, v);
      assert m - {v} - {u} == m - {u} - {v};
    }
  }

  lemma SumUpdate(m: map<int, int>, u: int, x: int)
    requires u in m
    ensures Sum(m[u := x]) == Sum(m) - m[u] + x
  {
    SumRemove(m, u);
    SumRemove(m[u := x], u);
    assert m[u := x] - {u} == m - {u};
  }

  // ----- The machine

  /**
    A tracker; `items` are those still to be purged, the next one last. Before
    they are loaded, they are those that loading would have found at the start.
  */
  datatype Tracker = Tracker(used: int, quota: int, loaded: bool, items: seq<Item>)

  type Trackers = map<int, Tracker>

  datatype State = State(trackers: Trackers, active: Option<int>, queue: set<int>, needed: int, cleared: int)

  datatype Config = Config(target: int, reserved: int, defyQuota: bool, total: int)

  /**
    One iteration; `items` are those that the tracker that becomes active has, or
    loads, and `free` is the free space measured when enough seems to be cleared.
  */
  datatype Move = Swap(uid: int, items: seq<Item>) | Drop | Take(free: int)

  function RatioOf(t: Tracker): int {
    Ratio(t.used, t.quota)
  }

  ghost predicate Known(s: State) {
    && s.queue <= s.trackers.Keys
    && (s.active.Some? ==> s.active.value in s.trackers && s.active.value !in s.queue)
  }

  /** The queue's top: no tracker of `pool` has a larger ratio. */
  ghost predicate IsTop(trackers: Trackers, pool: set<int>, u: int)
    requires pool <= trackers.Keys
  {
    u in pool && forall v <- pool :: RatioOf(trackers[v]) <= RatioOf(trackers[u])
  }

  /** Is somebody in the queue more over quota than the active tracker? */
  ghost predicate NextBetter(s: State)
    requires Known(s)
  {
    s.active.Some? && exists v <- s.queue :: RatioOf(s.trackers[s.active.value]) < RatioOf(s.trackers[v])
  }

  ghost predicate QuotaStop(c: Config, s: State)
    requires Known(s)
  {
    s.active.Some? && RatioOf(s.trackers[s.active.value]) < OVER_QUOTA && !c.defyQuota
  }

  ghost predicate ReserveStop(c: Config, s: State) {
    c.reserved > 0 && s.cleared >= c.total - c.reserved
  }

  ghost predicate Exhausted(s: State) {
    s.active.None? && s.queue == {}
  }

  ghost predicate Halted(c: Config, s: State)
    requires Known(s)
  {
    s.needed <= 0 || Exhausted(s) || QuotaStop(c, s) || ReserveStop(c, s)
  }

  ghost function Pool(s: State): set<int> {
    s.queue + (if s.active.Some? then {s.active.value} else {})
  }

  /** The tracker after its last item was purged. */
  function Purged(t: Tracker): Tracker
    requires t.items != []
  {
    t.(used := t.used - t.items[|t.items| - 1].size, items := t.items[..|t.items| - 1])
  }

  /** Items are loaded once; later in the call there are no more of them than there were at the start. */
  ghost predicate CanLoad(t: Tracker, items: seq<Item>) {
    if t.loaded then items == t.items else |items| <= |t.items|
  }

  function Loaded(t: Tracker, items: seq<Item>): Tracker {
    t.(loaded := true, items := items)
  }

  ghost predicate Next(c: Config, s: State, m: Move, s': State) {
    && Known(s) && !Halted(c, s)
    && match m
       case Swap(u, items) =>
         && (s.active.None? || NextBetter(s))
         && IsTop(s.trackers, Pool(s), u)
         && CanLoad(s.trackers[u], items)
         && s' == s.(trackers := s.trackers[u := Loaded(s.trackers[u], items)],
                     active := Some(u), queue := Pool(s) - {u})
       case Drop =>
         && s.active.Some? && !NextBetter(s)
         && s.trackers[s.active.value].items == []
         && s' == s.(active := None)
       case Take(free) =>
         && s.active.Some? && !NextBetter(s)
         && var u := s.active.value;
            var t := s.trackers[u];
            && t.items != []
            && var size := t.items[|t.items| - 1].size;
               s' == State(s.trackers[u := Purged(t)], s.active, s.queue,
                           if s.needed - size <= 0 then c.target - free else s.needed - size,
                           s.cleared + size)
  }

  ghost predicate Start(c: Config, s: State) {
    && s.active.None? && s.queue == s.trackers.Keys && s.cleared == 0
    && c.total == Sum(UsedMap(s.trackers))
  }

  ghost predicate IsRun(c: Config, states: seq<State>, moves: seq<Move>) {
    && |states| == |moves| + 1
    && Start(c, states[0])
    && (forall i :: 0 <= i < |moves| ==> StepAt(c, states, moves, i))
  }

  ghost predicate StepAt(c: Config, states: seq<State>, moves: seq<Move>, i: nat)
    requires i < |moves| && |states| == |moves| + 1
  {
    Next(c, states[i], moves[i], states[i + 1])
  }

  // ----- Measurements

  /** Does the purge look how much space is free? It does when enough seems to be cleared. */
  ghost predicate Looks(s: State, m: Move) {
    && m.Take? && s.active.Some? && s.active.value in s.trackers
    && var items := s.trackers[s.active.value].items;
       items != [] && s.needed - items[|items| - 1].size <= 0
  }

  /** How many of the first `j` moves look. */
  ghost function Looked(states: seq<State>, moves: seq<Move>, j: nat): nat
    requires j <= |moves| <= |states|
  {
    if j == 0 then 0
    else Looked(states, moves, j - 1) + (if Looks(states[j - 1], moves[j - 1]) then 1 else 0)
  }

  lemma {:induction false} LookedBefore(states: seq<State>, moves: seq<Move>, s: State, m: Move, j: nat)
    requires j <= |moves| < |states|
    ensures Looked(states + [s], moves + [m], j) == Looked(states, moves, j)
    decreases j
  {
    if j > 0 {
      LookedBefore(states, moves, s, m, j - 1);
    }
  }

  // ----- What every iteration keeps

  ghost function UsedMap(trackers: Trackers): map<int, int> {
    map u | u in trackers :: trackers[u].used
  }

  /** Trackers outside the pool have nothing left, and nothing is cleared twice or forgotten. */
  ghost predicate Inv(c: Config, s: State) {
    && Known(s)
    && (s.active.Some? ==> s.trackers[s.active.value].loaded)
    && (forall u <- s.trackers.Keys | u !in Pool(s) :: s.trackers[u].items == [] && s.trackers[u].loaded)
    && s.cleared + Sum(UsedMap(s.trackers)) == c.total
  }

  lemma NextKeepsInv(c: Config, s: State, m: Move, s': State)
    requires Inv(c, s) && Next(c, s, m, s')
    ensures Inv(c, s')
  {
    match m
    case Swap(u, _) =>
      assert UsedMap(s'.trackers) == UsedMap(s.trackers);
    case Drop =>
    case Take(_) =>
      var u := s.active.value;
      var t := s.trackers[u];
      SumUpdate(UsedMap(s.trackers), u, Purged(t).used);
      assert UsedMap(s'.trackers) == UsedMap(s.trackers)[u := Purged(t).used];
  }

  lemma {:induction false} RunKeepsInv(c: Config, states: seq<State>, moves: seq<Move>, i: nat)
    requires IsRun(c, states, moves) && i < |states|
    ensures Inv(c, states[i])
  {
    if i > 0 {
      RunKeepsInv(c, states, moves, i - 1);
      assert StepAt(c, states, moves, i - 1);
      NextKeepsInv(c, states[i - 1], moves[i - 1], states[i]);
    }
  }

  /** At every point of a run, what was cleared and what is still used add up to the initial total. */
  lemma Conservation(c: Config, states: seq<State>, moves: seq<Move>, i: nat)
    requires IsRun(c, states, moves) && i < |states|
    ensures states[i].cleared + Sum(UsedMap(states[i].trackers)) == c.total
  {
    RunKeepsInv(c, states, moves, i);
  }

  // ----- Fairness

  /** Every purged item comes from a tracker with the largest ratio among all that have, or may have, items left. */
  lemma Fairness(c: Config, states: seq<State>, moves: seq<Move>, i: nat, v: int)
    requires IsRun(c, states, moves) && i < |moves| && moves[i].Take?
    requires v in states[i].trackers && (states[i].trackers[v].items != [] || !states[i].trackers[v].loaded)
    ensures states[i].active.Some? && states[i].active.value in states[i].trackers
    ensures RatioOf(states[i].trackers[v]) <= RatioOf(states[i].trackers[states[i].active.value])
  {
    RunKeepsInv(c, states, moves, i);
    assert StepAt(c, states, moves, i);
  }

  // ----- The reserve and the quotas

  /** The last purge before position `j` (of tracker `u` only, when `u` is given). */
  ghost function LastTake(states: seq<State>, moves: seq<Move>, u: Option<int>, j: nat): (i: Option<nat>)
    requires j <= |moves| <= |states|
    ensures i.Some? ==> i.value < j && moves[i.value].Take? && (u.Some? ==> states[i.value].active == u)
  {
    if j == 0 then None
    else if moves[j - 1].Take? && (u.None? || states[j - 1].active == u) then Some(j - 1)
    else LastTake(states, moves, u, j - 1)
  }

  /** The size of the item purged at position `i`. */
  ghost function TakenSize(c: Config, states: seq<State>, moves: seq<Move>, i: nat): int
    requires IsRun(c, states, moves) && i < |moves| && moves[i].Take?
  {
    assert StepAt(c, states, moves, i);
    var t := states[i].trackers[states[i].active.value];
    t.items[|t.items| - 1].size
  }

  lemma {:induction false} ClearedSince(c: Config, states: seq<State>, moves: seq<Move>, j: nat)
    requires IsRun(c, states, moves) && j <= |moves|
    ensures var i := LastTake(states, moves, None, j);
            states[j].cleared == if i.None? then 0 else states[i.value + 1].cleared
  {
    if j > 0 {
      assert StepAt(c, states, moves, j - 1);
      if !moves[j - 1].Take? {
        ClearedSince(c, states, moves, j - 1);
      }
    }
  }

  /**
    With a reservation, the cache that remains at any point falls below the
    reserve, if at all, by less than the size of the item purged last.
  */
  lemma ReserveBound(c: Config, states: seq<State>, moves: seq<Move>, j: nat)
    requires IsRun(c, states, moves) && j <= |moves| && c.reserved > 0
    ensures var i := LastTake(states, moves, None, j);
            i.Some? ==> Sum(UsedMap(states[j].trackers)) > c.reserved - TakenSize(c, states, moves, i.value)
  {
    Conservation(c, states, moves, j);
    ClearedSince(c, states, moves, j);
    var i := LastTake(states, moves, None, j);
    if i.Some? {
      assert StepAt(c, states, moves, i.value);
    }
  }

  lemma {:induction false} UsedSince(c: Config, states: seq<State>, moves: seq<Move>, u: int, j: nat)
    requires IsRun(c, states, moves) && j <= |moves| && u in states[0].trackers
    ensures u in states[j].trackers && states[j].trackers[u].quota == states[0].trackers[u].quota
    ensures var i := LastTake(states, moves, Some(u), j);
            i.Some? ==>
              && u in states[i.value + 1].trackers
              && states[j].trackers[u].used == states[i.value + 1].trackers[u].used
  {
    if j > 0 {
      UsedSince(c, states, moves, u, j - 1);
      assert StepAt(c, states, moves, j - 1);
    }
  }

  /**
    Unless quotas are defied, a tracker is only purged when its ratio says that
    it is over its quota. Unless its use is negative, which only a quota service
    can bring about, it then has used >= quota, so it never ends below its quota
    by more than the size of its last purged item.
  */
  lemma QuotaSafety(c: Config, states: seq<State>, moves: seq<Move>, u: int, j: nat)
    requires IsRun(c, states, moves) && j <= |moves| && u in states[0].trackers
    requires !c.defyQuota
    ensures u in states[j].trackers
    ensures var i := LastTake(states, moves, Some(u), j);
            i.Some? ==>
              && u in states[i.value].trackers
              && RatioOf(states[i.value].trackers[u]) >= OVER_QUOTA
              && (states[i.value].trackers[u].used >= 0 ==>
                    && states[i.value].trackers[u].used >= states[i.value].trackers[u].quota
                    && states[j].trackers[u].used >= states[j].trackers[u].quota - TakenSize(c, states, moves, i.value))
  {
    UsedSince(c, states, moves, u, j);
    var i := LastTake(states, moves, Some(u), j);
    if i.Some? {
      UsedSince(c, states, moves, u, i.value);
      var t := states[i.value].trackers[u];
      assert StepAt(c, states, moves, i.value);
      if t.used >= 0 {
        OverMeansUsedUp(t.used, t.quota);
      }
    }
  }

  /** That bound is reached: a run purges a tracker that is exactly at its quota. */
  lemma QuotaBoundIsReached(item: Item) returns (c: Config, states: seq<State>, moves: seq<Move>)
    requires 0 < item.size <= 1000
    ensures IsRun(c, states, moves) && !c.defyQuota && |moves| == 2 && 7 in states[2].trackers
    ensures LastTake(states, moves, Some(7), 2) == Some(1) && TakenSize(c, states, moves, 1) == item.size
    ensures states[2].trackers[7].quota - states[2].trackers[7].used == item.size
  {
    var t := Tracker(1000, 1000, false, [item]);
    var start, full, after := map[7 := t], map[7 := t.(loaded := true)], map[7 := Purged(t.(loaded := true))];
    c := Config(5000, 0, false, 1000);
    var s0, s1 := State(start, None, {7}, 5000, 0), State(full, Some(7), {}, 5000, 0);
    var s2 := State(after, Some(7), {}, 5000 - item.size, item.size);
    states, moves := [s0, s1, s2], [Swap(7, [item]), Take(0)];
    assert start[7 := t.(loaded := true)] == full && full[7 := Purged(full[7])] == after;
    SumRemove(UsedMap(start), 7);
    assert UsedMap(start) - {7} == map[];
    assert Ratio(1000, 1000) == OVER_QUOTA;
    assert Pool(s0) - {7} == {} && IsTop(start, Pool(s0), 7);
    assert StepAt(c, states, moves, 0) && StepAt(c, states, moves, 1);
  }

  /** All trackers that have, or may have, items left are under their quota, as their ratios say. */
  ghost predicate AllUnder(s: State) {
    forall v <- s.trackers.Keys | s.trackers[v].items != [] || !s.trackers[v].loaded ::
      RatioOf(s.trackers[v]) < OVER_QUOTA
  }

  /**
    When the quotas halt a run, its last move was a swap or a purge. After a swap
    every tracker that has, or may have, items left is under its quota.
  */
  lemma QuotaStopAfterSwap(c: Config, states: seq<State>, moves: seq<Move>)
    requires IsRun(c, states, moves) && Known(states[|moves|]) && QuotaStop(c, states[|moves|])
    ensures moves != [] && !moves[|moves| - 1].Drop?
    ensures moves[|moves| - 1].Swap? ==> AllUnder(states[|moves|])
  {
    RunKeepsInv(c, states, moves, |moves|);
    if moves != [] {
      var i := |moves| - 1;
      assert StepAt(c, states, moves, i);
      if moves[i].Swap? {
        TopIsUnder(c, states[i], moves[i], states[|moves|]);
      }
    }
  }

  /** The tracker that became active has the largest ratio. */
  lemma TopIsUnder(c: Config, s: State, m: Move, s': State)
    requires Next(c, s, m, s') && m.Swap? && Inv(c, s') && QuotaStop(c, s')
    ensures AllUnder(s')
  {
    forall v <- s'.trackers.Keys | s'.trackers[v].items != [] || !s'.trackers[v].loaded
      ensures RatioOf(s'.trackers[v]) < OVER_QUOTA
    {
      assert v in Pool(s') && v in Pool(s);
      assert RatioOf(s'.trackers[v]) == RatioOf(s.trackers[v]) <= RatioOf(s.trackers[m.uid]);
    }
  }

  /** After a purge this fails: a run that stops with another tracker at its quota and all its items still there. */
  lemma QuotaStopAfterTake(item: Item) returns (c: Config, states: seq<State>, moves: seq<Move>)
    requires 0 < item.size <= 1000
    ensures IsRun(c, states, moves) && |moves| == 2 && moves[1].Take?
    ensures Known(states[2]) && QuotaStop(c, states[2]) && !AllUnder(states[2])
  {
    var t := Tracker(1000, 1000, false, [item]);
    var l := Loaded(t, [item]);
    var start, full, after := map[7 := t, 8 := t], map[7 := l, 8 := t], map[7 := Purged(l), 8 := t];
    c := Config(5000, 0, false, 2000);
    var s0, s1 := State(start, None, {7, 8}, 5000, 0), State(full, Some(7), {8}, 5000, 0);
    var s2 := State(after, Some(7), {8}, 5000 - item.size, item.size);
    states, moves := [s0, s1, s2], [Swap(7, [item]), Take(0)];
    assert start[7 := l] == full && full[7 := Purged(full[7])] == after;
    SumRemove(UsedMap(start), 7);
    SumRemove(UsedMap(start) - {7}, 8);
    assert UsedMap(start) - {7} - {8} == map[];
    assert Ratio(1000, 1000) == OVER_QUOTA;
    assert Pool(s0) - {7} == {8} && IsTop(start, Pool(s0), 7);
    assert StepAt(c, states, moves, 0) && StepAt(c, states, moves, 1);
    assert RatioOf(after[8]) == OVER_QUOTA;
    QuotientMeetsQuota(1000 - item.size, 1000);
    FittingRatio(1000 - item.size, 1000);
  }

  // ----- Termination

  ghost function CountMap(trackers: Trackers): map<int, int> {
    map u | u in trackers :: |trackers[u].items|
  }

  /** Two for every item and every waiting or active tracker, one for a swap that is due. */
  ghost function Budget(s: State): int
    requires Known(s)
  {
    2 * (Sum(CountMap(s.trackers)) + |Pool(s)|) + (if s.active.None? || NextBetter(s) then 1 else 0)
  }

  lemma SwapSpends(c: Config, s: State, u: int, items: seq<Item>, s': State)
    requires Next(c, s, Swap(u, items), s')
    ensures Known(s') && Budget(s') < Budget(s)
  {
    SwapKeepsPool(s, u, items, s');
    SwapKeepsCount(s.trackers, u, items);
  }

  /** After a swap the same trackers are in play, and no further swap is due. */
  lemma SwapKeepsPool(s: State, u: int, items: seq<Item>, s': State)
    requires Known(s) && IsTop(s.trackers, Pool(s), u)
    requires s'.trackers == s.trackers[u := Loaded(s.trackers[u], items)]
    requires s'.active == Some(u) && s'.queue == Pool(s) - {u}
    ensures Known(s') && !NextBetter(s') && Pool(s') == Pool(s)
  {
  }

  lemma SwapKeepsCount(trackers: Trackers, u: int, items: seq<Item>)
    requires u in trackers && CanLoad(trackers[u], items)
    ensures Sum(CountMap(trackers[u := Loaded(trackers[u], items)])) <= Sum(CountMap(trackers))
  {
    assert CountMap(trackers[u := Loaded(trackers[u], items)]) == CountMap(trackers)[u := |items|];
    SumUpdate(CountMap(trackers), u, |items|);
  }

  lemma DropSpends(c: Config, s: State, s': State)
    requires Next(c, s, Drop, s')
    ensures Known(s') && Budget(s') < Budget(s)
  {
    assert Pool(s) == Pool(s') + {s.active.value};
  }

  lemma TakeSpends(c: Config, s: State, free: int, s': State)
    requires Next(c, s, Take(free), s')
    ensures Known(s') && Budget(s') < Budget(s)
  {
    var u := s.active.value;
    var n := |s.trackers[u].items| - 1;
    assert CountMap(s'.trackers) == CountMap(s.trackers)[u := n];
    SumUpdate(CountMap(s.trackers), u, n);
    assert Pool(s') == Pool(s);
  }

  lemma Spends(c: Config, s: State, m: Move, s': State)
    requires Next(c, s, m, s')
    ensures Known(s) && Known(s') && Budget(s') < Budget(s)
  {
    match m
    case Swap(u, items) => SwapSpends(c, s, u, items, s');
    case Drop => DropSpends(c, s, s');
    case Take(free) => TakeSpends(c, s, free, s');
  }

  lemma SpendsAt(c: Config, states: seq<State>, moves: seq<Move>, i: nat)
    requires IsRun(c, states, moves) && i < |moves|
    ensures Known(states[i]) && Known(states[i + 1]) && Budget(states[i + 1]) < Budget(states[i])
  {
    assert StepAt(c, states, moves, i);
    Spends(c, states[i], moves[i], states[i + 1]);
  }

  lemma {:induction false} SumNonNegative(m: map<int, int>)
    requires forall u <- m.Keys :: m[u] >= 0
    ensures Sum(m) >= 0
    decreases |m|
  {
    if exists u :: u in m.Keys {
      var u :| u in m.Keys && Sum(m) == m[u] + Sum(m - {u});
      SumNonNegative(m - {u});
    }
  }

  lemma {:induction false} SpentSoFar(c: Config, states: seq<State>, moves: seq<Move>, i: nat)
    requires IsRun(c, states, moves) && i <= |moves|
    ensures Known(states[0]) && Known(states[i]) && i + Budget(states[i]) <= Budget(states[0])
  {
    if i > 0 {
      var k := i - 1;
      SpentSoFar(c, states, moves, k);
      SpendsAt(c, states, moves, k);
      assert states[k + 1] == states[i];
    }
  }

  /** No run is longer than twice the number of items and trackers, plus one. */
  lemma RunsAreShort(c: Config, states: seq<State>, moves: seq<Move>)
    requires IsRun(c, states, moves)
    ensures |moves| <= 2 * (Sum(CountMap(states[0].trackers)) + |states[0].trackers|) + 1
  {
    SpentSoFar(c, states, moves, |moves|);
    SumNonNegative(CountMap(states[|moves|].trackers));
    assert Pool(states[0]) == states[0].trackers.Keys;
  }

  // ----- How a run ends

  /** Every item of every tracker was loaded and purged, and no tracker is left to look at. */
  ghost predicate AllPurged(s: State) {
    && s.active.None? && s.queue == {}
    && forall u <- s.trackers.Keys :: s.trackers[u].items == [] && s.trackers[u].loaded
  }

  /** Not more than the reserved size is used. */
  ghost predicate OnlyReserveLeft(c: Config, s: State) {
    c.reserved > 0 && Sum(UsedMap(s.trackers)) <= c.reserved
  }

  /** The active tracker is under its quota, and that counts. */
  ghost predicate ActiveIsUnder(c: Config, s: State)
    requires Known(s)
  {
    !c.defyQuota && s.active.Some? && RatioOf(s.trackers[s.active.value]) < 10000
  }

  /** The four ends of the loop, by what is needed, left and used. */
  ghost predicate Ends(c: Config, s: State) {
    Known(s) && (s.needed <= 0 || AllPurged(s) || OnlyReserveLeft(c, s) || ActiveIsUnder(c, s))
  }

  lemma HaltedEnds(c: Config, s: State)
    requires Inv(c, s)
    ensures Halted(c, s) <==> Ends(c, s)
  {
  }

  /** At every point a run goes on exactly when it has come to none of these ends. */
  lemma EndsExactly(c: Config, states: seq<State>, moves: seq<Move>, j: nat)
    requires IsRun(c, states, moves) && j <= |moves|
    ensures Known(states[j]) && (Halted(c, states[j]) <==> Ends(c, states[j]))
    ensures j < |moves| ==> !Ends(c, states[j])
  {
    RunKeepsInv(c, states, moves, j);
    HaltedEnds(c, states[j]);
    if j < |moves| {
      assert StepAt(c, states, moves, j);
    }
  }

  /**
    A run that has come to an end either measured enough free space last, or has
    purged every item of every tracker, or has left no more than the reserved
    size, or its active tracker is under its quota and quotas are not defied.
  */
  lemma RunEnds(c: Config, states: seq<State>, moves: seq<Move>)
    requires IsRun(c, states, moves) && states[0].needed > 0
    requires Known(states[|moves|]) && Halted(c, states[|moves|])
    ensures var s := states[|moves|];
            || (moves != [] && moves[|moves| - 1].Take? && moves[|moves| - 1].free >= c.target)
            || (forall u <- s.trackers.Keys :: s.trackers[u].items == [] && s.trackers[u].loaded)
            || (c.reserved > 0 && Sum(UsedMap(s.trackers)) <= c.reserved)
            || (!c.defyQuota && s.active.Some? && RatioOf(s.trackers[s.active.value]) < 10000)
  {
    EndsExactly(c, states, moves, |moves|);
    if states[|moves|].needed <= 0 {
      assert StepAt(c, states, moves, |moves| - 1);
    }
  }
}
