/**
 * The JavaScript string built-ins the scraper relies on, over `string`
 * (a sequence of code points): `trim`, `toLowerCase`, `toUpperCase`,
 * `includes`, and the character classes `\s` and `\d` of its regular
 * expressions.
 */
module Text {

  /**
   * ECMAScript WhiteSpace and LineTerminator code points. `trim()` removes
   * exactly these at both ends, and `\s` in a regular expression matches
   * exactly these.
   */
  predicate IsSpace(c: char) {
    c in WhiteSpace
  }

  const WhiteSpace: set<char> := {
    '\t', '\n', '\U{0B}', '\U{0C}', '\r', ' ', '\U{A0}', '\U{1680}',
    '\U{2000}', '\U{2001}', '\U{2002}', '\U{2003}', '\U{2004}', '\U{2005}',
    '\U{2006}', '\U{2007}', '\U{2008}', '\U{2009}', '\U{200A}',
    '\U{2028}', '\U{2029}', '\U{202F}', '\U{205F}', '\U{3000}', '\U{FEFF}'
  }

  /** `\d` (without the `u` flag): the ASCII digits only. */
  predicate IsDigit(c: char) {
    '0' <= c <= '9'
  }

  function DigitValue(c: char): (d: nat)
    requires IsDigit(c)
    ensures d <= 9
  {
    c as int - '0' as int
  }

  /** `trimStart()`: drops the longest prefix made of white space. */
  function TrimStart(s: string): (r: string)
    ensures |r| <= |s| && r == s[|s| - |r|..]
    ensures r != [] ==> !IsSpace(r[0])
  {
    if |s| > 0 && IsSpace(s[0]) then TrimStart(s[1..]) else s
  }

  /** What `TrimStart` drops is white space, so it drops the longest such prefix. */
  lemma {:induction false} TrimStartDropsSpace(s: string)
    ensures forall i :: 0 <= i < |s| - |TrimStart(s)| ==> IsSpace(s[i])
  {
    if |s| > 0 && IsSpace(s[0]) {
      var tail := s[1..];
      assert TrimStart(s) == TrimStart(tail);
      TrimStartDropsSpace(tail);
      forall i | 1 <= i < |s| - |TrimStart(s)|
        ensures IsSpace(s[i])
      {
        assert s[i] == tail[i - 1];
      }
    }
  }

  /** `trimEnd()`: drops the longest suffix made of white space. */
  function TrimEnd(s: string): (r: string)
    ensures |r| <= |s| && r == s[..|r|]
    ensures r != [] ==> !IsSpace(r[|r| - 1])
  {
    if |s| > 0 && IsSpace(s[|s| - 1]) then TrimEnd(s[..|s| - 1]) else s
  }

  /** `trim()`: a slice of `s` that neither starts nor ends with white space. */
  function Trim(s: string): (r: string)
    ensures |r| <= |s|
    ensures r != [] ==> !IsSpace(r[0]) && !IsSpace(r[|r| - 1])
  {
    TrimEnd(TrimStart(s))
  }

  /** What `TrimEnd` drops is white space, so it drops the longest such suffix. */
  lemma {:induction false} TrimEndDropsSpace(s: string)
    ensures forall i :: |TrimEnd(s)| <= i < |s| ==> IsSpace(s[i])
  {
    if |s| > 0 && IsSpace(s[|s| - 1]) {
      var front := s[..|s| - 1];
      assert TrimEnd(s) == TrimEnd(front);
      TrimEndDropsSpace(front);
      forall i | |TrimEnd(s)| <= i < |s|
        ensures IsSpace(s[i])
      {
        if i < |s| - 1 {
          assert s[i] == front[i];
        }
      }
    }
  }

  /**
   * `trim()` keeps exactly the slice of `s` between its leading and its
   * trailing white space: everything before the slice and everything after
   * it is white space.
   */
  lemma {:induction false} TrimIsSlice(s: string)
    ensures var n := |s| - |TrimStart(s)|;
      && n + |Trim(s)| <= |s|
      && Trim(s) == s[n..n + |Trim(s)|]
      && (forall k :: 0 <= k < n ==> IsSpace(s[k]))
      && (forall k :: n + |Trim(s)| <= k < |s| ==> IsSpace(s[k]))
  {
    var t := TrimStart(s);
    TrimStartDropsSpace(s);
    TrimEndDropsSpace(t);
    SliceOfSuffix(s, |s| - |t|, TrimEnd(t));
  }

  /** A prefix `r` of the suffix of `s` from `n` is the slice of `s` from `n`, and what follows it in the suffix follows it in `s`. */
  lemma {:induction false} SliceOfSuffix(s: string, n: nat, r: string)
    requires n <= |s| && |r| <= |s| - n && r == s[n..][..|r|]
    requires forall i :: |r| <= i < |s| - n ==> IsSpace(s[n..][i])
    ensures r == s[n..n + |r|]
    ensures forall k :: n + |r| <= k < |s| ==> IsSpace(s[k])
  {
    forall k | n + |r| <= k < |s|
      ensures IsSpace(s[k])
    {
      assert s[k] == s[n..][k - n];
    }
  }

  /** A string with no white space at either end is its own trim. */
  lemma {:induction false} TrimUnchanged(s: string)
    requires s != [] ==> !IsSpace(s[0]) && !IsSpace(s[|s| - 1])
    ensures Trim(s) == s
  {
  }

  function LowerChar(c: char): char {
    if 'A' <= c <= 'Z' then (c as int + 32) as char else c
  }

  function UpperChar(c: char): char {
    if 'a' <= c <= 'z' then (c as int - 32) as char else c
  }

  /** `toLowerCase()` on the ASCII letters; every other code point is kept. */
  function Lower(s: string): (r: string)
    ensures |r| == |s|
    ensures forall i :: 0 <= i < |s| ==> r[i] == LowerChar(s[i])
  {
    if s == [] then [] else [LowerChar(s[0])] + Lower(s[1..])
  }

  /** `toUpperCase()` on the ASCII letters; every other code point is kept. */
  function Upper(s: string): (r: string)
    ensures |r| == |s|
    ensures forall i :: 0 <= i < |s| ==> r[i] == UpperChar(s[i])
  {
    if s == [] then [] else [UpperChar(s[0])] + Upper(s[1..])
  }

  /** `s.includes(sub)`: `sub` occurs in `s` as a contiguous block. */
  predicate Contains(s: string, sub: string) {
    (|sub| <= |s| && s[..|sub|] == sub) || (s != [] && Contains(s[1..], sub))
  }

  /** A lowercased string has no upper-case ASCII letter left, so lowercasing again changes nothing. */
  lemma {:induction false} LowerIsNormal(s: string)
    ensures forall i :: 0 <= i < |s| ==> !('A' <= Lower(s)[i] <= 'Z')
    ensures Lower(Lower(s)) == Lower(s)
  {
  }

  /** `includes` is true only when `sub` occurs in `s`: `s` is some string, then `sub`, then some string. */
  lemma {:induction false} ContainsSound(s: string, sub: string)
    requires Contains(s, sub)
    ensures exists a, b :: s == a + sub + b
    decreases |s|
  {
    if |sub| <= |s| && s[..|sub|] == sub {
      assert s == [] + sub + s[|sub|..];
    } else {
      ContainsSound(s[1..], sub);
      var a, b :| s[1..] == a + sub + b;
      assert s == [s[0]] + a + sub + b;
    }
  }

  /** `includes` holds exactly when `sub` occurs in `s`. */
  lemma {:induction false} ContainsIff(s: string, sub: string)
    ensures Contains(s, sub) <==> exists a, b :: s == a + sub + b
  {
    if Contains(s, sub) {
      ContainsSound(s, sub);
    }
    if a, b :| s == a + sub + b {
      ContainsInfix(a, sub, b);
    }
  }

  /** A string shorter than `sub` cannot contain it. */
  lemma {:induction false} ContainsNeedsRoom(s: string, sub: string)
    requires |s| < |sub|
    ensures !Contains(s, sub)
    decreases |s|
  {
    if s != [] {
      ContainsNeedsRoom(s[1..], sub);
    }
  }

  /** Any string that has `sub` between two other strings contains it. */
  lemma {:induction false} ContainsInfix(a: string, sub: string, b: string)
    ensures Contains(a + sub + b, sub)
  {
    if a == [] {
      assert (a + sub + b)[..|sub|] == sub;
    } else {
      ContainsInfix(a[1..], sub, b);
      assert (a + sub + b)[1..] == a[1..] + sub + b;
    }
  }
}
