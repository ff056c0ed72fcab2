/** The `std::string` searches the engine relies on: `find`, `find_first_of`,
    `find_first_not_of`, `find_last_of` and `rfind`. `None` plays `npos`. */
module Strings {
  import opened Wrappers

  /** `pat` occurs in `s` starting at index `i`. */
  predicate OccursAt(s: string, pat: string, i: nat) {
    i + |pat| <= |s| && s[i..i + |pat|] == pat
  }

  /** `s.find(pat, from)`: the first occurrence starting at or after `from`. */
  function Find(s: string, pat: string, from: nat): (r: Option<nat>)
    ensures r.Some? ==> from <= r.value && OccursAt(s, pat, r.value)
    ensures r.Some? ==> forall j :: from <= j < r.value ==> !OccursAt(s, pat, j)
    ensures r.None? ==> forall j :: from <= j ==> !OccursAt(s, pat, j)
    decreases |s| - from
  {
    if from + |pat| > |s| then None
    else if s[from..from + |pat|] == pat then Some(from)
    else Find(s, pat, from + 1)
  }

  /** `s.find_first_of(chars, from)`. */
  function FindFirstOf(s: string, chars: set<char>, from: nat): (r: Option<nat>)
    ensures r.Some? ==> from <= r.value < |s| && s[r.value] in chars
    ensures r.Some? ==> forall j :: from <= j < r.value ==> s[j] !in chars
    ensures r.None? ==> forall j :: from <= j < |s| ==> s[j] !in chars
    decreases |s| - from
  {
    if from >= |s| then None
    else if s[from] in chars then Some(from)
    else FindFirstOf(s, chars, from + 1)
  }

  /** `s.find_first_not_of(chars, from)`. */
  function FindFirstNotOf(s: string, chars: set<char>, from: nat): (r: Option<nat>)
    ensures r.Some? ==> from <= r.value < |s| && s[r.value] !in chars
    ensures r.Some? ==> forall j :: from <= j < r.value ==> s[j] in chars
    ensures r.None? ==> forall j :: from <= j < |s| ==> s[j] in chars
    decreases |s| - from
  {
    if from >= |s| then None
    else if s[from] !in chars then Some(from)
    else FindFirstNotOf(s, chars, from + 1)
  }

  /** `s.find_last_of(chars)`: the last index holding one of `chars`. */
  function FindLastOf(s: string, chars: set<char>): (r: Option<nat>)
    ensures r.Some? ==> r.value < |s| && s[r.value] in chars
    ensures r.Some? ==> forall j :: r.value < j < |s| ==> s[j] !in chars
    ensures r.None? ==> forall j :: 0 <= j < |s| ==> s[j] !in chars
    decreases |s|
  {
    if |s| == 0 then None
    else if s[|s| - 1] in chars then Some(|s| - 1)
    else FindLastOf(s[..|s| - 1], chars)
  }

  /** `s.rfind(c)`: the last index holding `c`. */
  function RFind(s: string, c: char): (r: Option<nat>)
    ensures r.Some? ==> r.value < |s| && s[r.value] == c
    ensures r.Some? ==> forall j :: r.value < j < |s| ==> s[j] != c
    ensures r.None? ==> forall j :: 0 <= j < |s| ==> s[j] != c
  {
    FindLastOf(s, {c})
  }

  /** `s` ends with `suffix`. */
  predicate EndsWith(s: string, suffix: string) {
    |suffix| <= |s| && s[|s| - |suffix|..] == suffix
  }

  /** The search contracts pin the answer down: the first occurrence after
      `from` is where `Find` stops, and there is no other answer. */
  lemma FindIsFirstOccurrence(s: string, pat: string, from: nat, k: nat)
    requires from <= k && OccursAt(s, pat, k)
    requires forall j :: from <= j < k ==> !OccursAt(s, pat, j)
    ensures Find(s, pat, from) == Some(k)
  {
  }

  lemma FindFirstNotOfIs(s: string, chars: set<char>, from: nat, k: nat)
    requires from <= k < |s| && s[k] !in chars
    requires forall j :: from <= j < k ==> s[j] in chars
    ensures FindFirstNotOf(s, chars, from) == Some(k)
  {
  }

  lemma FindFirstOfIs(s: string, chars: set<char>, from: nat, k: nat)
    requires from <= k < |s| && s[k] in chars
    requires forall j :: from <= j < k ==> s[j] !in chars
    ensures FindFirstOf(s, chars, from) == Some(k)
  {
  }

  lemma FindLastOfIs(s: string, chars: set<char>, k: nat)
    requires k < |s| && s[k] in chars
    requires forall j :: k < j < |s| ==> s[j] !in chars
    ensures FindLastOf(s, chars) == Some(k)
  {
  }

  lemma RFindIs(s: string, c: char, k: nat)
    requires k < |s| && s[k] == c
    requires forall j :: k < j < |s| ==> s[j] != c
    ensures RFind(s, c) == Some(k)
  {
  }
}
