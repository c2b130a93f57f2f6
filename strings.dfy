/**
 * The two pieces of Python string handling the clients rely on:
 * `str.strip(chars)` (with and without an argument) and the
 * `.lower() == "y"` test of the "Try again?" prompts.
 */
module Strings {

  /** The characters for which Python's `str.isspace()` holds; `s.strip()` with no argument removes these. */
  const Whitespace: set<char> := {
    ' ', '\t', '\n', '\r', '\U{0B}', '\U{0C}', '\U{1C}', '\U{1D}', '\U{1E}', '\U{1F}',
    '\U{85}', '\U{A0}', '\U{1680}', '\U{2000}', '\U{2001}', '\U{2002}', '\U{2003}',
    '\U{2004}', '\U{2005}', '\U{2006}', '\U{2007}', '\U{2008}', '\U{2009}', '\U{200A}',
    '\U{2028}', '\U{2029}', '\U{202F}', '\U{205F}', '\U{3000}'
  }

  /** `s.lstrip(cs)`: the longest suffix of `s` that does not start with a character of `cs`. */
  function TrimStart(s: string, cs: set<char>): (r: string)
    ensures |r| <= |s| && r == s[|s| - |r|..]
    ensures r != [] ==> r[0] !in cs
    ensures forall i :: 0 <= i < |s| - |r| ==> s[i] in cs
  {
    if s != [] && s[0] in cs then TrimStart(s[1..], cs) else s
  }

  /** `s.rstrip(cs)`: the longest prefix of `s` that does not end with a character of `cs`. */
  function TrimEnd(s: string, cs: set<char>): (r: string)
    ensures |r| <= |s| && r == s[..|r|]
    ensures r != [] ==> r[|r| - 1] !in cs
    ensures forall i :: |r| <= i < |s| ==> s[i] in cs
  {
    if s != [] && s[|s| - 1] in cs then TrimEnd(s[..|s| - 1], cs) else s
  }

  /** Every character of `s[lo..hi]` is in `cs`. */
  predicate AllIn(s: string, lo: int, hi: int, cs: set<char>)
    requires 0 <= lo <= hi <= |s|
  {
    forall k :: lo <= k < hi ==> s[k] in cs
  }

  /**
   * A prefix `r` of a suffix `left` of `s` is the slice of `s` that starts
   * where `left` does; a run of characters of `cs` after `r` in `left` is
   * one at the same place in `s`.
   */
  lemma PrefixOfSuffix(s: string, left: string, r: string, cs: set<char>)
    requires |left| <= |s| && left == s[|s| - |left|..]
    requires |r| <= |left| && r == left[..|r|]
    requires AllIn(left, |r|, |left|, cs)
    ensures r == s[|s| - |left|..|s| - |left| + |r|]
    ensures AllIn(s, |s| - |left| + |r|, |s|, cs)
  {
    var i := |s| - |left|;
    forall k | 0 <= k < |r| ensures r[k] == s[i + k] {
      assert r[k] == left[k];
    }
    forall k | i + |r| <= k < |s| ensures s[k] in cs {
      assert s[k] == left[k - i];
    }
  }

  /**
   * `s.strip(cs)`: what is left of `s` once every character of `cs` is
   * removed from both ends: a slice `s[i..j]` with only characters of `cs`
   * before `i` and after `j`, and none at its own ends. The result is empty
   * exactly when every character of `s` is in `cs`.
   */
  function Strip(s: string, cs: set<char>): (r: string)
    ensures |r| <= |s|
    ensures exists i, j :: 0 <= i <= j <= |s| && r == s[i..j] && AllIn(s, 0, i, cs) && AllIn(s, j, |s|, cs)
    ensures r != [] ==> r[0] !in cs && r[|r| - 1] !in cs
    ensures r == [] <==> AllIn(s, 0, |s|, cs)
  {
    var left := TrimStart(s, cs);
    var r := TrimEnd(left, cs);
    PrefixOfSuffix(s, left, r, cs);
    assert AllIn(s, 0, |s| - |left|, cs);
    assert r != [] ==> r[0] == left[0];
    r
  }

  /** Stripping a string that already has no character of `cs` at either end leaves it as it is. */
  lemma {:induction false} StripKeepsTrimmed(s: string, cs: set<char>)
    requires s == [] || (s[0] !in cs && s[|s| - 1] !in cs)
    ensures Strip(s, cs) == s
  {
    assert TrimStart(s, cs) == s;
  }

  /** ASCII case folding of one character. */
  function LowerChar(c: char): char
  {
    if 'A' <= c <= 'Z' then (c as int + 32) as char else c
  }

  /** `s.lower()`, restricted to ASCII letters (the only letters whose lower case is `y` are `y` and `Y`). */
  function Lower(s: string): (r: string)
    ensures |r| == |s|
  {
    seq(|s|, i requires 0 <= i < |s| => LowerChar(s[i]))
  }

  /** The "Try again? (y/N)" prompts retry when `answer.lower() == "y"`. */
  predicate IsYes(answer: string)
  {
    Lower(answer) == "y"
  }

  /** Exactly two answers make the prompts retry: `y` and `Y`. */
  lemma YesAnswers(answer: string)
    ensures IsYes(answer) <==> answer == "y" || answer == "Y"
  {
    if IsYes(answer) {
      assert |answer| == 1;
      assert Lower(answer)[0] == 'y';
      assert LowerChar(answer[0]) == 'y';
      assert answer == [answer[0]];
    } else {
      assert Lower("y") == "y";
      assert Lower("Y") == "y";
    }
  }
}
