/**
  dumpstate's `Progress`: how far a bug report has come, how far it is expected
  to go, and the running average of earlier runs that this expectation comes
  from. The average is kept in a text file, as a number of runs and a rounded
  average, and never as a sum.
*/
module DumpstateProgress {
  import opened Wrappers

  const DEFAULT_MAX := 5000
  const STATS_MAX_N_RUNS := 1000
  const STATS_MAX_AVERAGE := 100000

  // ----- Numbers as text

  function Digit(c: char): int {
    c as int - '0' as int
  }

  predicate IsDigit(c: char) {
    '0' <= c <= '9'
  }

  function DecimalNat(n: nat): (s: string)
    ensures s != [] && forall c <- s :: IsDigit(c)
  {
    if n < 10 then [('0' as int + n) as char] else DecimalNat(n / 10) + [('0' as int + n % 10) as char]
  }

  /** The "%d" conversion. */
  function Decimal(n: int): string {
    if n < 0 then "-" + DecimalNat(-n) else DecimalNat(n)
  }

  predicate IsSpace(c: char) {
    c in {' ', '\t', '\n', '\r'}
  }

  function SkipSpaces(s: string): string {
    if s != [] && IsSpace(s[0]) then SkipSpaces(s[1..]) else s
  }

  /** The value of the leading digits on top of `value`, and what follows them. */
  function TakeDigits(s: string, value: int): (int, string) {
    if s != [] && IsDigit(s[0]) then TakeDigits(s[1..], value * 10 + Digit(s[0])) else (value, s)
  }

  /** strtol in base 10: the number and the rest of the text; without a number, zero and all of it. */
  function Strtol(s: string): (int, string) {
    var t := SkipSpaces(s);
    if t != [] && IsDigit(t[0]) then TakeDigits(t, 0)
    else if |t| > 1 && t[0] in {'-', '+'} && IsDigit(t[1]) then
      var (value, rest) := TakeDigits(t[1..], 0);
      (if t[0] == '-' then -value else value, rest)
    else (0, s)
  }

  predicate StartsWithDigit(s: string) {
    s != [] && IsDigit(s[0])
  }

  lemma TakeOneDigit(d: nat, rest: string, value: int)
    requires d < 10
    ensures TakeDigits([('0' as int + d) as char] + rest, value) == TakeDigits(rest, value * 10 + d)
  {
    var s := [('0' as int + d) as char] + rest;
    assert s[1..] == rest && Digit(s[0]) == d;
  }

  lemma {:induction false} TakeDigitsOf(n: nat, rest: string)
    ensures TakeDigits(DecimalNat(n) + rest, 0) == TakeDigits(rest, n)
  {
    if n < 10 {
      TakeOneDigit(n, rest, 0);
    } else {
      var d := [('0' as int + n % 10) as char];
      assert DecimalNat(n) + rest == DecimalNat(n / 10) + (d + rest);
      TakeDigitsOf(n / 10, d + rest);
      TakeOneDigit(n % 10, rest, n / 10);
    }
  }

  /** What "%d" wrote strtol reads back, up to the first character that is no digit. */
  lemma StrtolReadsDecimal(n: int, rest: string)
    requires !StartsWithDigit(rest)
    ensures Strtol(Decimal(n) + rest) == (n, rest)
  {
    var m: nat := if n < 0 then -n else n;
    var digits := DecimalNat(m);
    TakeDigitsOf(m, rest);
    assert TakeDigits(digits + rest, 0) == (m, rest);
    assert IsDigit((digits + rest)[0]) by {
      assert digits[0] in digits;
    }
    if n < 0 {
      assert Decimal(n) + rest == ['-'] + (digits + rest);
      assert (['-'] + (digits + rest))[1..] == digits + rest;
    }
  }

  // ----- The stats file

  datatype Stats = Stats(runs: int, average: int)

  function Content(s: Stats): string {
    Decimal(s.runs) + " " + Decimal(s.average) + "\n"
  }

  function FirstLine(content: string): string {
    if content == [] || content[0] == '\n' then [] else [content[0]] + FirstLine(content[1..])
  }

  function Parsed(line: string): Stats {
    var (runs, rest) := Strtol(line);
    Stats(runs, Strtol(rest).0)
  }

  predicate Accepted(s: Stats) {
    0 < s.runs <= STATS_MAX_N_RUNS && 0 < s.average <= STATS_MAX_AVERAGE
  }

  lemma {:induction false} FirstLineOf(line: string, rest: string)
    requires '\n' !in line
    ensures FirstLine(line + "\n" + rest) == line
  {
    if line == [] {
    } else {
      FirstLineOf(line[1..], rest);
      assert (line + "\n" + rest)[1..] == line[1..] + "\n" + rest;
    }
  }

  lemma DecimalStarts(n: int)
    ensures Decimal(n) != [] && !IsSpace(Decimal(n)[0])
  {
    if n >= 0 {
      assert DecimalNat(n)[0] in DecimalNat(n);
    }
  }

  lemma DecimalHasNoNewline(n: int)
    ensures '\n' !in Decimal(n)
  {
  }

  /** Loading what was saved gives it back. */
  lemma SavedIsLoaded(s: Stats)
    ensures Parsed(FirstLine(Content(s))) == s
  {
    var runs, average := Decimal(s.runs), Decimal(s.average);
    DecimalHasNoNewline(s.runs);
    DecimalHasNoNewline(s.average);
    var line := runs + " " + average;
    assert Content(s) == line + "\n" + "";
    FirstLineOf(line, "");
    assert line == runs + (" " + average);
    StrtolReadsDecimal(s.runs, " " + average);
    assert SkipSpaces(" " + average) == SkipSpaces(average) by {
      assert (" " + average)[1..] == average;
    }
    assert average + "" == average;
    StrtolReadsDecimal(s.average, "");
    DecimalStarts(s.average);
    NumberAfterSpace(average);
  }

  lemma NumberAfterSpace(s: string)
    requires s != [] && !IsSpace(s[0]) && Strtol(s).1 == ""
    ensures Strtol(" " + s).0 == Strtol(s).0
  {
    assert (" " + s)[1..] == s;
    assert SkipSpaces(" " + s) == s == SkipSpaces(s);
  }

  // ----- Averages over runs

  /** Division rounded down, for a divisor other than zero. */
  function FloorDiv(a: int, b: int): (q: int)
    requires b != 0
    ensures b > 0 ==> q * b <= a < (q + 1) * b
    ensures b < 0 ==> (q + 1) * b < a <= q * b
  {
    if b > 0 then a / b else (-a) / (-b)
  }

  /** The stats after one more run; `undefined` is the value of a division by zero. */
  function NextStats(s: Stats, progress: int, undefined: int): Stats {
    var total := s.runs * s.average + progress;
    var runs := s.runs + 1;
    Stats(runs, if runs == 0 then undefined else FloorDiv(total, runs))
  }

  /** The stats after runs of these lengths, from no stats at all. */
  function StatsAfter(runs: seq<int>): Stats {
    if runs == [] then Stats(0, 0) else NextStats(StatsAfter(runs[..|runs| - 1]), runs[|runs| - 1], 0)
  }

  function Sum(runs: seq<int>): int {
    if runs == [] then 0 else Sum(runs[..|runs| - 1]) + runs[|runs| - 1]
  }

  lemma {:induction false} RunsAreCounted(runs: seq<int>)
    ensures StatsAfter(runs).runs == |runs|
  {
    if runs != [] {
      RunsAreCounted(runs[..|runs| - 1]);
    }
  }

  lemma Cancel(a: int, b: int, n: int)
    requires n > 0 && a * n < (b + 1) * n
    ensures a <= b
  {
  }

  lemma BetweenStep(n: nat, average: int, r: int, lo: int, hi: int)
    requires n > 0 ==> lo <= average <= hi
    requires lo <= r <= hi
    ensures lo <= FloorDiv(n * average + r, n + 1) <= hi
  {
    var total := n * average + r;
    if n > 0 {
      assert n * lo <= n * average <= n * hi;
    }
    assert (n + 1) * lo <= total <= (n + 1) * hi;
    var q := FloorDiv(total, n + 1);
    Cancel(q, hi, n + 1);
    Cancel(lo, q, n + 1);
  }

  /** The stored average lies between the shortest and the longest run. */
  lemma {:induction false} AverageIsBetween(runs: seq<int>, lo: int, hi: int)
    requires runs != [] && forall r <- runs :: lo <= r <= hi
    ensures lo <= StatsAfter(runs).average <= hi
  {
    var before := runs[..|runs| - 1];
    RunsAreCounted(before);
    assert forall r <- before :: r in runs;
    assert runs[|runs| - 1] in runs;
    if before != [] {
      AverageIsBetween(before, lo, hi);
    }
    BetweenStep(|before|, StatsAfter(before).average, runs[|runs| - 1], lo, hi);
  }

  /**
    Rounding down at every run lets the stored average drift below the true
    mean, by at most (n - 1) / 2 after n runs, and never above it. Written
    without division: n times the average is at most the sum of the runs and
    falls short of it by at most n (n - 1) / 2.
  */
  lemma {:induction false} DriftIsBounded(runs: seq<int>)
    ensures var n := |runs|;
            var kept := n * StatsAfter(runs).average;
            kept <= Sum(runs) && 2 * Sum(runs) <= 2 * kept + n * (n - 1)
  {
    if runs != [] {
      var before := runs[..|runs| - 1];
      var n, r := |before|, runs[|runs| - 1];
      DriftIsBounded(before);
      RunsAreCounted(before);
      DriftStep(n, StatsAfter(before).average, Sum(before), r);
    }
  }

  lemma DriftStep(n: nat, average: int, sum: int, r: int)
    requires n * average <= sum && 2 * sum <= 2 * (n * average) + n * (n - 1)
    ensures var kept := (n + 1) * FloorDiv(n * average + r, n + 1);
            kept <= sum + r && 2 * (sum + r) <= 2 * kept + (n + 1) * n
  {
    var total := n * average + r;
    assert total - n <= (n + 1) * FloorDiv(total, n + 1) <= total;
    assert n * (n - 1) + 2 * n == (n + 1) * n;
  }

  /** Runs of 0, 1, ..., n - 1 seconds. */
  function Rising(n: nat): (runs: seq<int>)
    ensures |runs| == n
  {
    if n == 0 then [] else Rising(n - 1) + [n - 1]
  }

  lemma RisingNext(n: nat)
    ensures NextStats(Stats(n, 0), n, 0) == Stats(n + 1, 0)
  {
    assert n * 0 + n == n;
  }

  lemma Triangle(n: nat)
    ensures n * (n - 1) + 2 * n == (n + 1) * n
  {
  }

  /** The bound is met for every number of runs: these are stored as an average of 0 and have the mean (n - 1) / 2. */
  lemma {:induction false} DriftBoundIsReached(n: nat)
    ensures StatsAfter(Rising(n)) == Stats(n, 0) && 2 * Sum(Rising(n)) == n * (n - 1)
  {
    if n > 0 {
      DriftBoundIsReached(n - 1);
      OneMoreRun(Rising(n - 1), n - 1);
      OneMoreSum(Rising(n - 1), n - 1);
      RisingNext(n - 1);
      Triangle(n - 1);
    }
  }

  lemma OneMoreSum(runs: seq<int>, r: int)
    ensures Sum(runs + [r]) == Sum(runs) + r
  {
    var all := runs + [r];
    assert all[..|all| - 1] == runs;
  }

  /**
    Runs of 1 to 100000 seconds leave stats that the next run accepts exactly as
    long as there were between 1 and 1000 of them; from then on every later run
    goes back to the default maximum.
  */
  lemma AcceptedFor1000Runs(runs: seq<int>)
    requires forall r <- runs :: 0 < r <= STATS_MAX_AVERAGE
    ensures Accepted(StatsAfter(runs)) <==> 0 < |runs| <= STATS_MAX_N_RUNS
  {
    RunsAreCounted(runs);
    if runs != [] {
      AverageIsBetween(runs, 1, STATS_MAX_AVERAGE);
    }
  }

  // ----- The class

  /** The file at a path: no content when it cannot be read. */
  class StatsFile {
    var content: Option<string>
    const writable: bool

    constructor (content: Option<string>, writable: bool)
      ensures this.content == content && this.writable == writable
    {
      this.content, this.writable := content, writable;
    }

    method Write(text: string) returns (ok: bool)
      modifies this
      ensures ok == writable
      ensures content == if writable then Some(text) else old(content)
    {
      ok := writable;
      if writable {
        content := Some(text);
      }
    }
  }

  /** The maximum after progress went beyond it. */
  function Grown(progress: int, growth: real): int {
    (progress as real * growth).Floor
  }

  class Progress {
    var initialMax: int
    var progress: int
    var max: int
    var growthFactor: real
    var nRuns: int
    var averageMax: int
    /** None is the empty path. */
    const path: Option<StatsFile>

    constructor (initialMax: int, growthFactor: real, path: Option<StatsFile>)
      ensures this.growthFactor == growthFactor && this.path == path && progress == 0
      ensures max == this.initialMax
      ensures if path.None? || path.value.content.None? || path.value.content.value == ""
              then this.initialMax == initialMax && Stats(nRuns, averageMax) == Stats(0, 0)
              else
                var s := Parsed(FirstLine(path.value.content.value));
                Stats(nRuns, averageMax) == s && this.initialMax == if Accepted(s) then s.average else DEFAULT_MAX
    {
      this.initialMax, this.growthFactor, this.path := initialMax, growthFactor, path;
      progress, max, nRuns, averageMax := 0, initialMax, 0, 0;
      new;
      if path.Some? {
        Load(path.value);
      }
    }

    method Load(file: StatsFile)
      modifies this
      ensures progress == old(progress) && growthFactor == old(growthFactor)
      ensures if file.content.None? || file.content.value == ""
              then initialMax == old(initialMax) && max == old(max) && nRuns == old(nRuns)
                   && averageMax == old(averageMax)
              else
                var s := Parsed(FirstLine(file.content.value));
                && Stats(nRuns, averageMax) == s
                && initialMax == (if Accepted(s) then s.average else DEFAULT_MAX) && max == initialMax
    {
      if file.content.None? {
        return;
      }
      var content := file.content.value;
      if content == "" {
        return;
      }
      var line := FirstLine(content);
      var (runs, rest) := Strtol(line);
      nRuns := runs;
      averageMax := Strtol(rest).0;
      if nRuns <= 0 || averageMax <= 0 || nRuns > STATS_MAX_N_RUNS || averageMax > STATS_MAX_AVERAGE {
        initialMax := DEFAULT_MAX;
      } else {
        initialMax := averageMax;
      }
      max := initialMax;
    }

    method Save(undefined: int)
      modifies if path.Some? then {path.value} else {}
      ensures path.Some? ==>
                path.value.content == if path.value.writable
                                      then Some(Content(NextStats(Stats(nRuns, averageMax), progress, undefined)))
                                      else old(path.value.content)
    {
      var total := nRuns * averageMax + progress;
      var runs := nRuns + 1;
      var average := if runs == 0 then undefined else FloorDiv(total, runs);
      if path.None? {
        return;
      }
      var content := Decimal(runs) + " " + Decimal(average) + "\n";
      var _ := path.value.Write(content);
    }

    method Inc(delta: int) returns (changed: bool)
      modifies this`progress, this`max
      ensures (progress, max) == AfterInc(old(progress), old(max), growthFactor, delta)
      ensures changed <==> delta >= 0 && progress > old(max)
    {
      changed := false;
      if delta >= 0 {
        progress := progress + delta;
        if progress > max {
          max := Grown(progress, growthFactor);
          changed := true;
        }
      }
    }
  }

  // ----- Within a run

  /** `progress` and `max` after Inc(delta). */
  function AfterInc(progress: int, max: int, growth: real, delta: int): (int, int) {
    if delta < 0 then (progress, max)
    else if progress + delta > max then (progress + delta, Grown(progress + delta, growth))
    else (progress + delta, max)
  }

  /** A growth factor of at least one never takes the maximum below the progress. */
  lemma GrownIsEnough(progress: int, growth: real)
    requires progress >= 0 && growth >= 1.0
    ensures Grown(progress, growth) >= progress
  {
    assert progress as real * growth >= progress as real;
  }

  lemma IncStaysWithin(progress: int, max: int, growth: real, delta: int)
    requires 0 <= progress <= max && growth >= 1.0
    ensures var (p, m) := AfterInc(progress, max, growth, delta);
            progress <= p <= m && max <= m
  {
    if delta >= 0 {
      GrownIsEnough(progress + delta, growth);
    }
  }

  /** The progress and the maximum after a whole run of increments. */
  function AfterRun(progress: int, max: int, growth: real, deltas: seq<int>): (int, int)
    decreases deltas
  {
    if deltas == [] then (progress, max)
    else
      var (p, m) := AfterInc(progress, max, growth, deltas[0]);
      AfterRun(p, m, growth, deltas[1..])
  }

  /** Over a whole run progress stays within the maximum, and neither ever decreases. */
  lemma {:induction false} RunKeepsMax(progress: int, max: int, growth: real, deltas: seq<int>)
    requires 0 <= progress <= max && growth >= 1.0
    ensures var (p, m) := AfterRun(progress, max, growth, deltas);
            progress <= p <= m && max <= m
    decreases deltas
  {
    if deltas != [] {
      IncStaysWithin(progress, max, growth, deltas[0]);
      var (p, m) := AfterInc(progress, max, growth, deltas[0]);
      RunKeepsMax(p, m, growth, deltas[1..]);
    }
  }

  /** With a growth factor below one some increment takes progress beyond the maximum; with any other, none does. */
  lemma GrowthMustNotShrink(growth: real)
    ensures growth >= 1.0 <==>
            forall progress: int, max: int, delta: int ::
              0 <= progress <= max ==>
                AfterInc(progress, max, growth, delta).0 <= AfterInc(progress, max, growth, delta).1
  {
    if growth >= 1.0 {
      forall progress: int, max: int, delta: int | 0 <= progress <= max
        ensures AfterInc(progress, max, growth, delta).0 <= AfterInc(progress, max, growth, delta).1
      {
        IncStaysWithin(progress, max, growth, delta);
      }
    } else {
      assert AfterInc(0, 0, growth, 1) == (1, Grown(1, growth));
    }
  }

  /** The progress a run of increments ends with. */
  function Length(deltas: seq<int>): int {
    AfterRun(0, 0, 1.0, deltas).0
  }

  lemma {:induction false} LengthIsProgress(progress: int, max: int, max2: int, growth: real, growth2: real,
                                            deltas: seq<int>)
    ensures AfterRun(progress, max, growth, deltas).0 == AfterRun(progress, max2, growth2, deltas).0
    decreases deltas
  {
    if deltas != [] {
      var (p, m) := AfterInc(progress, max, growth, deltas[0]);
      LengthIsProgress(p, m, AfterInc(progress, max2, growth2, deltas[0]).1, growth, growth2, deltas[1..]);
    }
  }

  /** The increments of one bug report. */
  method IncAll(p: Progress, deltas: seq<int>)
    modifies p`progress, p`max
    ensures (p.progress, p.max) == AfterRun(old(p.progress), old(p.max), p.growthFactor, deltas)
  {
    ghost var end := AfterRun(p.progress, p.max, p.growthFactor, deltas);
    var i := 0;
    assert deltas[0..] == deltas;
    while i < |deltas|
      invariant 0 <= i <= |deltas|
      invariant AfterRun(p.progress, p.max, p.growthFactor, deltas[i..]) == end
    {
      var _ := p.Inc(deltas[i]);
      assert deltas[i..][1..] == deltas[i + 1..];
      i := i + 1;
    }
  }

  lemma OneMoreRun(runs: seq<int>, r: int)
    ensures StatsAfter(runs + [r]) == NextStats(StatsAfter(runs), r, 0)
  {
    var all := runs + [r];
    assert all[..|all| - 1] == runs;
  }

  /** One bug report over a file that holds the stats of the runs before: load, increments, save. */
  method RecordRun(file: StatsFile, ghost runs: seq<int>, deltas: seq<int>)
    requires file.writable
    requires file.content == if runs == [] then None else Some(Content(StatsAfter(runs)))
    modifies file
    ensures file.content == Some(Content(StatsAfter(runs + [Length(deltas)])))
  {
    SavedIsLoaded(StatsAfter(runs));
    var p := new Progress(DEFAULT_MAX, 1.1, Some(file));
    LengthIsProgress(0, 0, p.max, 1.0, p.growthFactor, deltas);
    IncAll(p, deltas);
    OneMoreRun(runs, p.progress);
    p.Save(0);
  }

  // ----- Telling the listener

  datatype Report = Report(progress: int, percent: int)

  /** Is an update due for a run that has come to `now` and was last reported at `last`? */
  predicate Due(updates: bool, last: int, threshold: int, now: int) {
    updates && (last <= 0 || now - last >= threshold)
  }

  class Dumpstate {
    const progress: Option<Progress>
    const doProgressUpdates: bool
    const listens: bool
    const threshold: int
    var lastUpdated: int
    const hasSocket: bool
    /** What the listener was told, the maxima it was told, and the progress and maximum written to the socket. */
    var reports: seq<Report>
    var maxima: seq<int>
    var lines: seq<(int, int)>

    constructor (progress: Option<Progress>, doProgressUpdates: bool, listens: bool, hasSocket: bool)
      ensures this.progress == progress && this.doProgressUpdates == doProgressUpdates
      ensures this.listens == listens && this.hasSocket == hasSocket
      ensures threshold == 100 && lastUpdated == 0 && reports == [] && maxima == [] && lines == []
    {
      this.progress, this.doProgressUpdates, this.listens, threshold := progress, doProgressUpdates, listens, 100;
      this.hasSocket := hasSocket;
      lastUpdated, reports, maxima, lines := 0, [], [], [];
    }

    /** The reports are of percentages and the threshold apart. */
    ghost predicate Reported()
      reads this
    {
      && (forall i | 0 <= i < |reports| :: 0 <= reports[i].percent <= 100)
      && Spaced(reports, threshold)
      && (reports != [] ==> listens && lastUpdated == reports[|reports| - 1].progress)
    }

    /** What a run keeps: sane progress, and its reports. */
    ghost predicate Valid()
      reads this, if progress.Some? then {progress.value} else {}
    {
      && Reported()
      && (progress.Some? ==>
            && 0 <= progress.value.progress <= progress.value.max && 0 < progress.value.max
            && progress.value.growthFactor >= 1.0
            && 0 <= lastUpdated <= progress.value.progress)
    }

    /** What was told when progress had come to `now` of `max`: everybody who listens, exactly when it was due. */
    ghost predicate Told(reports0: seq<Report>, lines0: seq<(int, int)>, last: int, now: int, max: int)
      reads this
    {
      0 <= now <= max && 0 < max &&
      var due := Due(doProgressUpdates, last, threshold, now);
      && reports == reports0 + (if due && listens then [Report(now, Percent(now, max))] else [])
      && lines == lines0 + (if due && hasSocket then [(now, max)] else [])
      && lastUpdated == if due then now else last
    }

    /** Increments the progress and tells the listener about a new maximum. */
    method UpdateMax(p: Progress, delta: int)
      requires 0 <= p.progress <= p.max && p.growthFactor >= 1.0 && Reported()
      modifies p`progress, p`max, this`maxima
      ensures Reported()
      ensures (p.progress, p.max) == AfterInc(old(p.progress), old(p.max), p.growthFactor, delta)
      ensures old(p.progress) <= p.progress <= p.max && old(p.max) <= p.max
      ensures maxima == old(maxima) + if doProgressUpdates && listens && p.max != old(p.max) then [p.max] else []
    {
      IncStaysWithin(p.progress, p.max, p.growthFactor, delta);
      var maxChanged := p.Inc(delta);
      if doProgressUpdates && maxChanged && listens {
        maxima := maxima + [p.max];
      }
    }

    /** Writes to the socket and tells the listener how far the run has come, when an update is due. */
    method Notify(now: int, max: int)
      requires Reported() && 0 <= now <= max && 0 < max && lastUpdated <= now
      modifies `lastUpdated, `reports, `lines
      ensures Reported()
      ensures Told(old(reports), old(lines), old(lastUpdated), now, max)
    {
      if !doProgressUpdates {
        return;
      }
      var sinceLast := now - lastUpdated;
      if lastUpdated > 0 && sinceLast < threshold {
        return;
      }
      lastUpdated := now;
      if hasSocket {
        lines := lines + [(now, max)];
      }
      var percent := Percent(now, max);
      if listens {
        SpacedMore(reports, threshold, Report(now, percent));
        reports := reports + [Report(now, percent)];
      }
    }

    method UpdateProgress(delta: int)
      requires Valid()
      modifies this, if progress.Some? then {progress.value} else {}
      ensures Valid()
      ensures progress.None? ==>
                && reports == old(reports) && maxima == old(maxima) && lines == old(lines)
                && lastUpdated == old(lastUpdated)
      ensures progress.Some? ==>
                var p := progress.value;
                && (p.progress, p.max) == AfterInc(old(p.progress), old(p.max), old(p.growthFactor), delta)
                && maxima == old(maxima) + (if doProgressUpdates && listens && p.max != old(p.max) then [p.max] else [])
      ensures progress.Some? ==>
                Told(old(reports), old(lines), old(lastUpdated), progress.value.progress, progress.value.max)
    {
      if progress.None? {
        return;
      }
      var p := progress.value;
      UpdateMax(p, delta);
      Notify(p.progress, p.max);
    }
  }

  lemma PercentIsPercent(progress: int, max: int)
    requires 0 <= progress <= max && 0 < max
    ensures 0 <= 100 * progress / max <= 100
  {
    assert 100 * progress <= 100 * max;
    assert 100 * max / max == 100;
    Cancel(100 * progress / max, 100, max);
  }

  function Percent(progress: int, max: int): (percent: int)
    requires 0 <= progress <= max && 0 < max
    ensures 0 <= percent <= 100
    ensures percent * max <= 100 * progress < percent * max + max
  {
    PercentIsPercent(progress, max);
    100 * progress / max
  }

  /** After a report of some progress the next one is at least the threshold further. */
  ghost predicate Spaced(reports: seq<Report>, threshold: int) {
    forall i, j | 0 <= i < j < |reports| && j == i + 1 ::
      reports[i].progress > 0 ==> reports[j].progress >= reports[i].progress + threshold
  }

  lemma SpacedMore(reports: seq<Report>, threshold: int, next: Report)
    requires Spaced(reports, threshold)
    requires reports != [] && reports[|reports| - 1].progress > 0 ==>
               next.progress >= reports[|reports| - 1].progress + threshold
    ensures Spaced(reports + [next], threshold)
  {
  }
}
