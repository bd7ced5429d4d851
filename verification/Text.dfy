/** Searching in strings, as `find` does. */
module Text {
  import opened Wrappers

  predicate MatchAt(s: string, pattern: string, k: int) {
    0 <= k && k + |pattern| <= |s| && forall j :: 0 <= j < |pattern| ==> s[k + j] == pattern[j]
  }

  /** The first occurrence of the pattern at or after `i`. */
  function Find(s: string, pattern: string, i: nat): (r: Option<nat>)
    ensures r.Some? ==> i <= r.value && r.value + |pattern| <= |s|
    decreases |s| - i
  {
    if i > |s| then None
    else if MatchAt(s, pattern, i) then Some(i)
    else Find(s, pattern, i + 1)
  }

  /** The result is the first occurrence, or there is none. */
  lemma {:induction false} FindFirst(s: string, pattern: string, i: nat)
    ensures var r := Find(s, pattern, i);
            && (r.Some? ==> MatchAt(s, pattern, r.value) && forall j :: i <= j < r.value ==> !MatchAt(s, pattern, j))
            && (r.None? ==> forall j :: i <= j ==> !MatchAt(s, pattern, j))
    decreases |s| - i
  {
    if i <= |s| && !MatchAt(s, pattern, i) {
      FindFirst(s, pattern, i + 1);
    }
  }

  predicate Contains(s: string, pattern: string) {
    Find(s, pattern, 0).Some?
  }

  lemma ContainsIff(s: string, pattern: string)
    ensures Contains(s, pattern) <==> exists k :: MatchAt(s, pattern, k)
  {
    FindFirst(s, pattern, 0);
  }

  /** The search is settled by an occurrence with none before it. */
  lemma FindIs(s: string, pattern: string, i: nat, k: nat)
    requires i <= k && MatchAt(s, pattern, k) && forall j :: i <= j < k ==> !MatchAt(s, pattern, j)
    ensures Find(s, pattern, i) == Some(k)
  {
    FindFirst(s, pattern, i);
  }
}
