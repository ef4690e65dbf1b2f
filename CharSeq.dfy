/** Searching a string for one character. */
module CharSeq {
  /** Index of the first `c` in `s`, or `|s|` when `s` has none. */
  function FirstIndexOf(s: string, c: char): (k: nat)
    ensures k <= |s|
  {
    if s == [] || s[0] == c then 0 else 1 + FirstIndexOf(s[1..], c)
  }

  /** `FirstIndexOf` finds the first `c`: none comes before it, and it is a
      `c` unless it is the end. */
  lemma {:induction false} FirstIndexOfFinds(s: string, c: char)
    ensures c !in s[..FirstIndexOf(s, c)]
    ensures FirstIndexOf(s, c) < |s| ==> s[FirstIndexOf(s, c)] == c
  {
    if s != [] && s[0] != c {
      FirstIndexOfFinds(s[1..], c);
      assert s[..FirstIndexOf(s, c)] == [s[0]] + s[1..][..FirstIndexOf(s[1..], c)];
    }
  }

  /** Appending `c` to a string free of `c` puts the first `c` at the end. */
  lemma {:induction false} FirstIndexOfAppended(s: string, c: char)
    requires c !in s
    ensures FirstIndexOf(s + [c], c) == |s|
  {
    if s != [] {
      assert (s + [c])[1..] == s[1..] + [c];
      FirstIndexOfAppended(s[1..], c);
    }
  }

  /** A string free of `c` is searched to its end. */
  lemma {:induction false} FirstIndexOfAbsent(s: string, c: char)
    requires c !in s
    ensures FirstIndexOf(s, c) == |s|
  {
    FirstIndexOfFinds(s, c);
  }

  /** The first `c` of a prefix free of `c` followed by `c` is right after it. */
  lemma {:induction false} FirstIndexOfAfterPrefix(a: string, c: char, b: string)
    requires c !in a
    ensures FirstIndexOf(a + [c] + b, c) == |a|
  {
    if a != [] {
      assert (a + [c] + b)[1..] == a[1..] + [c] + b;
      FirstIndexOfAfterPrefix(a[1..], c, b);
    }
  }
}
