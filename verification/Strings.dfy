/** Substrings, as Python's `in` tests them. */
module Strings {

  predicate Contains(s: string, part: string) {
    exists i | 0 <= i <= |s| :: part <= s[i..]
  }

  /** The text splits around the part. */
  ghost predicate Includes(s: string, part: string) {
    exists before, after :: s == before + part + after
  }

  lemma ContainsIff(s: string, part: string)
    ensures Contains(s, part) <==> Includes(s, part)
  {
    if i :| 0 <= i <= |s| && part <= s[i..] {
      assert s == s[..i] + part + s[i + |part|..];
    }
    if before, after :| s == before + part + after {
      assert part <= s[|before|..];
    }
  }
}
