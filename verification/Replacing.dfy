/** Replacing one character by a text, everywhere. */
module Replacing {
  function Replace(s: string, c: char, into: string): string {
    if s == "" then "" else (if s[0] == c then into else [s[0]]) + Replace(s[1..], c, into)
  }

  /** Replacement works on the parts of a text apart. */
  lemma {:induction false} ReplaceAppends(a: string, b: string, c: char, into: string)
    ensures Replace(a + b, c, into) == Replace(a, c, into) + Replace(b, c, into)
  {
    if a == "" {
      assert a + b == b;
    } else {
      assert (a + b)[1..] == a[1..] + b;
      ReplaceAppends(a[1..], b, c, into);
    }
  }

  lemma {:induction false} ReplaceNothing(s: string, c: char, into: string)
    requires c !in s
    ensures Replace(s, c, into) == s
  {
    if s != "" { ReplaceNothing(s[1..], c, into); }
  }
}
