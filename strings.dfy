/**
 * A model of `string.Replace(string oldValue, string newValue)`: ordinal
 * matching, scanning left to right and replacing non-overlapping occurrences.
 * `oldValue` must not be empty (the library throws for an empty one).
 */
module Strings {

  function Replace(s: string, target: string, replacement: string): (r: string)
    requires target != []
    ensures replacement == [] ==> |r| <= |s|
    ensures |target| == 1 && replacement == [] ==> target[0] !in r
    decreases |s|
  {
    if |s| < |target| then s
    else if s[..|target|] == target then replacement + Replace(s[|target|..], target, replacement)
    else [s[0]] + Replace(s[1..], target, replacement)
  }

  /** Replacing a single character works character by character, so it distributes over concatenation. */
  lemma {:induction false} ReplaceCharAppend(a: string, b: string, c: char, replacement: string)
    ensures Replace(a + b, [c], replacement) == Replace(a, [c], replacement) + Replace(b, [c], replacement)
    decreases |a|
  {
    if a != [] {
      assert (a + b)[1..] == a[1..] + b;
      assert (a + b)[..1] == a[..1];
      ReplaceCharAppend(a[1..], b, c, replacement);
    } else {
      assert a + b == b;
    }
  }

  /** A string without the character is left as it is. */
  lemma {:induction false} ReplaceCharAbsent(s: string, c: char, replacement: string)
    requires c !in s
    ensures Replace(s, [c], replacement) == s
    decreases |s|
  {
    if s != [] {
      assert s[0] in s;
      assert s[..1] != [c];
      ReplaceCharAbsent(s[1..], c, replacement);
      assert [s[0]] + s[1..] == s;
    }
  }

  /**
   * Removing a character deletes every occurrence of it and keeps every other
   * character as often as it occurs in `s`.
   */
  lemma {:induction false} RemoveCharCounts(s: string, c: char)
    ensures var r := Replace(s, [c], []);
      c !in r && forall d :: d != c ==> multiset(r)[d] == multiset(s)[d]
    decreases |s|
  {
    if s != [] {
      RemoveCharCounts(s[1..], c);
      assert s == [s[0]] + s[1..];
      assert multiset(s) == multiset([s[0]]) + multiset(s[1..]);
      if s[..1] == [c] {
        assert s[0] == c;
      } else {
        var r := Replace(s, [c], []);
        assert r == [s[0]] + Replace(s[1..], [c], []);
        assert multiset(r) == multiset([s[0]]) + multiset(Replace(s[1..], [c], []));
      }
    }
  }

  /** The characters of `s` other than `c`, in their order in `s`. */
  function Without(s: string, c: char): (r: string)
    ensures c !in r
    ensures |r| <= |s|
  {
    if s == [] then []
    else Without(s[..|s| - 1], c) + (if s[|s| - 1] == c then [] else [s[|s| - 1]])
  }

  /** Replacing a character by nothing is the same as leaving it out, order kept. */
  lemma {:induction false} RemoveCharIsWithout(s: string, c: char)
    ensures Replace(s, [c], []) == Without(s, c)
    decreases |s|
  {
    if s != [] {
      var init, last := s[..|s| - 1], s[|s| - 1];
      assert s == init + [last];
      ReplaceCharAppend(init, [last], c, []);
      RemoveCharIsWithout(init, c);
    }
  }
}
