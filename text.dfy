/** Text helpers behind the `icontains` lookup used by the match filter:
    ASCII lower-casing and substring search on `string` (= `seq<char>`). */
module Text {

  /** ASCII case folding: only 'A'..'Z' change. */
  function LowerChar(c: char): char
  {
    if 'A' <= c <= 'Z' then (c as int + 32) as char else c
  }

  function Lower(s: string): string
  {
    seq(|s|, i requires 0 <= i < |s| => LowerChar(s[i]))
  }

  predicate StartsWith(s: string, p: string)
  {
    |p| <= |s| && s[..|p|] == p
  }

  /** `p` occurs somewhere in `s` (Python's `p in s`). */
  predicate Contains(s: string, p: string)
    decreases |s|
  {
    StartsWith(s, p) || (|s| > 0 && Contains(s[1..], p))
  }

  /** The case-insensitive substring test of Django's `icontains` lookup,
      with ASCII folding on both sides. */
  predicate ContainsIgnoringCase(s: string, p: string)
  {
    Contains(Lower(s), Lower(p))
  }

  /** Folding twice is folding once. */
  lemma LowerIdempotent(s: string)
    ensures Lower(Lower(s)) == Lower(s)
  {
  }

  lemma LowerConcat(a: string, b: string)
    ensures Lower(a + b) == Lower(a) + Lower(b)
  {
  }

  /** A substring found as written is also found when case is ignored. */
  lemma {:induction false} ContainsLower(s: string, p: string)
    requires Contains(s, p)
    ensures Contains(Lower(s), Lower(p))
  {
    if StartsWith(s, p) {
      LowerConcat(s[..|p|], s[|p|..]);
      assert s == s[..|p|] + s[|p|..];
      assert Lower(s)[..|p|] == Lower(p);
    } else {
      ContainsLower(s[1..], p);
      LowerConcat(s[..1], s[1..]);
      assert s == s[..1] + s[1..];
      assert Lower(s)[1..] == Lower(s[1..]);
    }
  }

  /** Any infix of a string is contained in it. */
  lemma {:induction false} ContainsInfix(a: string, p: string, b: string)
    ensures Contains(a + p + b, p)
    decreases |a|
  {
    if a == [] {
      assert a + p + b == p + b;
      assert (p + b)[..|p|] == p;
    } else {
      ContainsInfix(a[1..], p, b);
      assert (a + p + b)[1..] == a[1..] + p + b;
    }
  }

  /** icontains does not depend on the case of either side. */
  lemma IgnoringCaseIsCaseBlind(s: string, p: string)
    ensures ContainsIgnoringCase(Lower(s), p) == ContainsIgnoringCase(s, p)
    ensures ContainsIgnoringCase(s, Lower(p)) == ContainsIgnoringCase(s, p)
  {
    LowerIdempotent(s);
    LowerIdempotent(p);
  }
}
