/** String operations shared by the parsers. */
module Texts {
  /** The part of `s` before the first `c`; all of it if there is none. */
  function Before(s: string, c: char): (r: string)
    ensures |r| <= |s| && r == s[..|r|] && c !in r
    ensures |r| < |s| ==> s[|r|] == c
  {
    if s == [] || s[0] == c then [] else [s[0]] + Before(s[1..], c)
  }

  function Lower(c: char): char {
    if 'A' <= c <= 'Z' then c + ('a' - 'A') else c
  }

  lemma {:induction false} BeforeFirst(prefix: string, c: char, rest: string)
    requires c !in prefix
    ensures Before(prefix + [c] + rest, c) == prefix
    decreases |prefix|
  {
    if prefix == [] {
      assert prefix + [c] + rest == [c] + rest;
    } else {
      BeforeFirst(prefix[1..], c, rest);
      assert (prefix + [c] + rest)[1..] == prefix[1..] + [c] + rest;
    }
  }

  /** The letters and their small forms; every other character is its own. */
  lemma LowerOf(i: nat)
    requires i < 26
    ensures Lower("ABCDEFGHIJKLMNOPQRSTUVWXYZ"[i]) == "abcdefghijklmnopqrstuvwxyz"[i]
  {
  }

  lemma LowerElsewhere(c: char)
    requires c < 'A' || 'Z' < c
    ensures Lower(c) == c
  {
  }
}
