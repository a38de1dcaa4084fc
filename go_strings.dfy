/** The two string helpers of Go's `strings` package that the header check uses. */
module GoStrings {
  /** `strings.HasPrefix`: case-sensitive, character by character. */
  predicate HasPrefix(s: string, prefix: string): (b: bool)
    ensures b <==> |prefix| <= |s| && forall i :: 0 <= i < |prefix| ==> s[i] == prefix[i]
  {
    |prefix| <= |s| && s[..|prefix|] == prefix
  }

  /** `strings.TrimPrefix`: removes one leading copy of `prefix`, if there is one. */
  function TrimPrefix(s: string, prefix: string): (rest: string)
    ensures HasPrefix(s, prefix) ==> prefix + rest == s
    ensures !HasPrefix(s, prefix) ==> rest == s
  {
    if HasPrefix(s, prefix) then
      assert s == s[..|prefix|] + s[|prefix|..];
      s[|prefix|..]
    else s
  }

  /** Prefixing and trimming are inverse: `TrimPrefix` undoes `prefix +`. */
  lemma PrefixRoundTrip(prefix: string, rest: string)
    ensures HasPrefix(prefix + rest, prefix)
    ensures TrimPrefix(prefix + rest, prefix) == rest
  {
  }

  /** Only one copy is removed: a doubled prefix leaves one copy behind. */
  lemma TrimPrefixOnce(prefix: string, rest: string)
    ensures TrimPrefix(prefix + prefix + rest, prefix) == prefix + rest
  {
  }
}
