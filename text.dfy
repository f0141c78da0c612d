/**
 * The ASCII character classes and the few operations of Python's `str` that the
 * tagger relies on: lower-casing, stripping, substring, prefix and suffix tests.
 * Only the ASCII behaviour of these operations is modelled.
 */
module Text {

  predicate IsAsciiLetter(c: char) {
    'A' <= c <= 'Z' || 'a' <= c <= 'z'
  }

  /** The ASCII characters for which Python's `str.isspace()` holds. */
  predicate IsSpace(c: char) {
    c == ' ' || 9 <= c as int <= 13 || 28 <= c as int <= 31
  }

  function LowerChar(c: char): char {
    if 'A' <= c <= 'Z' then (c as int + 32) as char else c
  }

  /** `s.lower()` on ASCII text. */
  function Lower(s: string): (r: string)
    ensures |r| == |s|
  {
    if s == [] then [] else [LowerChar(s[0])] + Lower(s[1..])
  }

  lemma {:induction false} LowerIdempotent(s: string)
    ensures Lower(Lower(s)) == Lower(s)
  {
    if s != [] {
      LowerIdempotent(s[1..]);
    }
  }

  lemma {:induction false} LowerConcat(s: string, t: string)
    ensures Lower(s + t) == Lower(s) + Lower(t)
  {
    if s == [] {
      assert s + t == t;
    } else {
      assert (s + t)[0] == s[0];
      assert (s + t)[1..] == s[1..] + t;
      LowerConcat(s[1..], t);
      calc {
        Lower(s + t);
        [LowerChar(s[0])] + Lower(s[1..] + t);
        [LowerChar(s[0])] + (Lower(s[1..]) + Lower(t));
        ([LowerChar(s[0])] + Lower(s[1..])) + Lower(t);
      }
    }
  }

  lemma {:induction false} LowerUnchanged(s: string)
    requires forall i :: 0 <= i < |s| ==> !('A' <= s[i] <= 'Z')
    ensures Lower(s) == s
  {
    if s != [] {
      LowerUnchanged(s[1..]);
    }
  }

  /** Drops the longest prefix of `s` whose characters satisfy `drop`. */
  function TrimLeft(s: string, drop: char -> bool): (r: string)
    ensures |r| <= |s|
    decreases |s|
  {
    if s != [] && drop(s[0]) then TrimLeft(s[1..], drop) else s
  }

  /** Drops the longest suffix of `s` whose characters satisfy `drop`. */
  function TrimRight(s: string, drop: char -> bool): (r: string)
    ensures |r| <= |s|
    decreases |s|
  {
    if s != [] && drop(s[|s| - 1]) then TrimRight(s[..|s| - 1], drop) else s
  }

  /** `s.strip(chars)`, where `drop` tells which characters are stripped. */
  function Strip(s: string, drop: char -> bool): string {
    TrimRight(TrimLeft(s, drop), drop)
  }

  /** A string whose first and last characters are kept is its own strip. */
  lemma {:induction false} StripUnchanged(s: string, drop: char -> bool)
    requires s != [] && !drop(s[0]) && !drop(s[|s| - 1])
    ensures Strip(s, drop) == s
  {
  }

  predicate StartsWith(s: string, prefix: string) {
    |prefix| <= |s| && s[..|prefix|] == prefix
  }

  predicate EndsWith(s: string, suffix: string) {
    |suffix| <= |s| && s[|s| - |suffix|..] == suffix
  }

  /** `sub in s` for strings. */
  predicate Contains(s: string, sub: string)
    decreases |s|
  {
    StartsWith(s, sub) || (s != [] && Contains(s[1..], sub))
  }

  /** Stripping commutes with lower-casing when lower-casing does not change which characters are stripped. */
  lemma {:induction false} TrimLeftLower(s: string, drop: char -> bool)
    requires forall c :: drop(LowerChar(c)) == drop(c)
    ensures TrimLeft(Lower(s), drop) == Lower(TrimLeft(s, drop))
  {
    if s != [] {
      assert Lower(s)[0] == LowerChar(s[0]);
      if drop(s[0]) {
        assert Lower(s)[1..] == Lower(s[1..]);
        TrimLeftLower(s[1..], drop);
      }
    }
  }

  lemma {:induction false} TrimRightLower(s: string, drop: char -> bool)
    requires forall c :: drop(LowerChar(c)) == drop(c)
    ensures TrimRight(Lower(s), drop) == Lower(TrimRight(s, drop))
  {
    if s != [] {
      var init, last := s[..|s| - 1], s[|s| - 1];
      assert s == init + [last];
      LowerConcat(init, [last]);
      assert Lower(s)[|s| - 1] == LowerChar(last);
      if drop(last) {
        assert Lower(s)[..|s| - 1] == Lower(init);
        TrimRightLower(s[..|s| - 1], drop);
      }
    }
  }

  lemma {:induction false} StripLower(s: string, drop: char -> bool)
    requires forall c :: drop(LowerChar(c)) == drop(c)
    ensures Strip(Lower(s), drop) == Lower(Strip(s, drop))
  {
    TrimLeftLower(s, drop);
    TrimRightLower(TrimLeft(s, drop), drop);
  }
}
