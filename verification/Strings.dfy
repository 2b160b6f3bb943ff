/** The string searches of the C and C++ libraries that the path code uses. */
module Strings {
  import opened Wrappers

  /** strrchr, and rfind of a character without a position. */
  function LastIndex(s: string, c: char): (r: Option<nat>)
    ensures r.None? <==> c !in s
    ensures r.Some? ==> r.value < |s| && s[r.value] == c && forall k | r.value < k < |s| :: s[k] != c
  {
    if s == [] then None
    else if s[|s| - 1] == c then Some(|s| - 1)
    else LastIndex(s[..|s| - 1], c)
  }

  /** The first index of a character at or after `from`. */
  function IndexFrom(s: string, c: char, from: nat): (r: Option<nat>)
    ensures r.None? ==> forall k | from <= k < |s| :: s[k] != c
    ensures r.Some? ==> from <= r.value < |s| && s[r.value] == c && forall k | from <= k < r.value :: s[k] != c
    decreases |s| - from
  {
    if from >= |s| then None
    else if s[from] == c then Some(from)
    else IndexFrom(s, c, from + 1)
  }

  predicate MatchesAt(s: string, pattern: string, k: int) {
    0 <= k && k + |pattern| <= |s| && forall i | 0 <= i < |pattern| :: s[k + i] == pattern[i]
  }

  /** rfind of a string. */
  function LastMatch(s: string, pattern: string): (r: Option<nat>)
    ensures r.Some? ==> MatchesAt(s, pattern, r.value)
    ensures r.Some? ==> forall k :: k > r.value ==> !MatchesAt(s, pattern, k)
    ensures r.None? ==> forall k :: !MatchesAt(s, pattern, k)
  {
    LastMatchUpTo(s, pattern, |s|)
  }

  function LastMatchUpTo(s: string, pattern: string, from: nat): (r: Option<nat>)
    ensures r.Some? ==> r.value <= from && MatchesAt(s, pattern, r.value)
    ensures r.Some? ==> forall k :: r.value < k <= from ==> !MatchesAt(s, pattern, k)
    ensures r.None? ==> forall k :: k <= from ==> !MatchesAt(s, pattern, k)
  {
    if MatchesAt(s, pattern, from) then Some(from)
    else if from == 0 then None
    else LastMatchUpTo(s, pattern, from - 1)
  }

  /** find of a string finds something. */
  predicate Contains(s: string, pattern: string): (r: bool)
    ensures r <==> exists k :: MatchesAt(s, pattern, k)
  {
    LastMatch(s, pattern).Some?
  }

  predicate StartsWith(s: string, prefix: string) {
    |s| >= |prefix| && s[..|prefix|] == prefix
  }

  predicate EndsWith(s: string, suffix: string) {
    MatchesAt(s, suffix, |s| - |suffix|)
  }
}
