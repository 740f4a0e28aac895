/** Comparing names by their letters, in whatever case (ASCII). */
module Letters {
  function Lower(s: string): string
  {
    seq(|s|, i requires 0 <= i < |s| => if 'A' <= s[i] <= 'Z' then s[i] - 'A' + 'a' else s[i])
  }

  /** Letters of either case, position by position. */
  predicate SameLetters(a: string, b: string)
  {
    |a| == |b| && forall i :: 0 <= i < |a| ==>
      || a[i] == b[i]
      || ('a' <= a[i] <= 'z' && a[i] as int == b[i] as int + 32)
      || ('a' <= b[i] <= 'z' && b[i] as int == a[i] as int + 32)
  }

  /** Lower case is compared exactly when letters are. */
  lemma LowerIffSameLetters(a: string, b: string)
    ensures Lower(a) == Lower(b) <==> SameLetters(a, b)
  {
    if Lower(a) == Lower(b) {
      forall i | 0 <= i < |a|
        ensures a[i] == b[i] || ('a' <= a[i] <= 'z' && a[i] as int == b[i] as int + 32)
          || ('a' <= b[i] <= 'z' && b[i] as int == a[i] as int + 32) { assert Lower(a)[i] == Lower(b)[i]; }
    }
  }
}
