/**
 * The .NET string operations the core relies on: `String.Trim()`, the first-separator
 * `Split(sep, 2)`, and the case handling of `ToUpper()` / `OrdinalIgnoreCase`.
 * Strings are `seq<char>`, sequences of Unicode scalar values; .NET's UTF-16 surrogate
 * pairs are not modelled (every character the core inspects is in the Basic Multilingual Plane).
 */
module Strings {

  import opened Wrappers

  /** `Char.IsWhiteSpace`: the characters `String.Trim()` strips from both ends. */
  predicate IsWhiteSpace(c: char)
  {
    || ('\t' <= c <= '\r')
    || c == ' '
    || c == '\U{85}'
    || c == '\U{A0}'
    || c == '\U{1680}'
    || ('\U{2000}' <= c <= '\U{200A}')
    || c == '\U{2028}'
    || c == '\U{2029}'
    || c == '\U{202F}'
    || c == '\U{205F}'
    || c == '\U{3000}'
  }

  ghost predicate AllWhiteSpace(s: string)
  {
    forall k :: 0 <= k < |s| ==> IsWhiteSpace(s[k])
  }

  /** Number of white-space characters at the start of `s`. */
  function LeadingWhiteSpace(s: string): (n: nat)
    ensures n <= |s|
    ensures forall k :: 0 <= k < n ==> IsWhiteSpace(s[k])
    ensures n < |s| ==> !IsWhiteSpace(s[n])
  {
    if s == [] || !IsWhiteSpace(s[0]) then 0 else 1 + LeadingWhiteSpace(s[1..])
  }

  /** Number of white-space characters at the end of `s`. */
  function TrailingWhiteSpace(s: string): (n: nat)
    ensures n <= |s|
    ensures forall k :: |s| - n <= k < |s| ==> IsWhiteSpace(s[k])
    ensures n < |s| ==> !IsWhiteSpace(s[|s| - 1 - n])
  {
    if s == [] || !IsWhiteSpace(s[|s| - 1]) then 0 else 1 + TrailingWhiteSpace(s[..|s| - 1])
  }

  /** `String.Trim()`: drops the leading, then the trailing white space. */
  function Trim(s: string): (r: string)
    ensures |r| <= |s|
    ensures r == [] <==> AllWhiteSpace(s)
    ensures r != [] ==> !IsWhiteSpace(r[0]) && !IsWhiteSpace(r[|r| - 1])
  {
    var t := s[LeadingWhiteSpace(s)..];
    assert AllWhiteSpace(s) ==> t == [];
    t[..|t| - TrailingWhiteSpace(t)]
  }

  lemma {:induction false} LeadingOfPadded(w: string, t: string)
    requires AllWhiteSpace(w)
    requires t == [] || !IsWhiteSpace(t[0])
    ensures LeadingWhiteSpace(w + t) == |w| + LeadingWhiteSpace(t)
  {
    if w != [] {
      assert (w + t)[1..] == w[1..] + t;
      LeadingOfPadded(w[1..], t);
    } else {
      assert w + t == t;
    }
  }

  lemma {:induction false} TrailingOfPadded(t: string, w: string)
    requires AllWhiteSpace(w)
    requires t == [] || !IsWhiteSpace(t[|t| - 1])
    ensures TrailingWhiteSpace(t + w) == |w| + TrailingWhiteSpace(t)
  {
    if w != [] {
      assert (t + w)[..|t + w| - 1] == t + w[..|w| - 1];
      TrailingOfPadded(t, w[..|w| - 1]);
    } else {
      assert t + w == t;
    }
  }

  /**
   * Trim's defining property: whatever white space surrounds a core that neither
   * starts nor ends with white space, Trim returns exactly that core.
   */
  lemma TrimOfPadded(w1: string, x: string, w2: string)
    requires AllWhiteSpace(w1) && AllWhiteSpace(w2)
    requires x == [] || (!IsWhiteSpace(x[0]) && !IsWhiteSpace(x[|x| - 1]))
    ensures Trim(w1 + x + w2) == x
  {
    var s := w1 + x + w2;
    if x == [] {
      assert s == w1 + w2;
      assert AllWhiteSpace(s) by {
        forall k | 0 <= k < |s| ensures IsWhiteSpace(s[k]) {
          if k < |w1| { assert s[k] == w1[k]; } else { assert s[k] == w2[k - |w1|]; }
        }
      }
    } else {
      assert s == w1 + (x + w2);
      LeadingOfPadded(w1, x + w2);
      assert LeadingWhiteSpace(x + w2) == 0;
      var t := s[|w1|..];
      assert t == x + w2;
      TrailingOfPadded(x, w2);
      assert TrailingWhiteSpace(x) == 0;
      assert t[..|t| - |w2|] == x;
    }
  }

  lemma TrimIdempotent(s: string)
    ensures Trim(Trim(s)) == Trim(s)
  {
    var r := Trim(s);
    assert [] + r + [] == r;
    TrimOfPadded([], r, []);
  }

  /** Index of the first occurrence of `c` in `s`, or -1 (`String.IndexOf(char)`). */
  function IndexOf(s: string, c: char): (i: int)
    ensures -1 <= i < |s|
    ensures i >= 0 ==> s[i] == c && c !in s[..i]
    ensures i < 0 <==> c !in s
  {
    if s == [] then -1
    else if s[0] == c then 0
    else
      var j := IndexOf(s[1..], c);
      assert s == [s[0]] + s[1..];
      assert j >= 0 ==> s[..j + 1] == [s[0]] + s[1..][..j];
      if j < 0 then -1 else j + 1
  }

  /**
   * `s.Split(new[] { c }, 2)`: None when `c` does not occur (a one-part result),
   * otherwise the text before the first `c` and everything after it.
   */
  function SplitFirst(s: string, c: char): (r: Option<(string, string)>)
    ensures r.None? <==> c !in s
    ensures r.Some? ==> s == r.value.0 + [c] + r.value.1 && c !in r.value.0
  {
    var i := IndexOf(s, c);
    if i < 0 then None
    else
      assert s == s[..i] + [c] + s[i + 1..];
      Some((s[..i], s[i + 1..]))
  }

  /** Splitting a joined pair at the first separator, when the first part has none, gives the pair back. */
  lemma SplitFirstOfJoin(a: string, c: char, b: string)
    requires c !in a
    ensures SplitFirst(a + [c] + b, c) == Some((a, b))
  {
    var s := a + [c] + b;
    assert s[|a|] == c;
    assert s[..|a|] == a;
  }

  /** Invariant-culture upper-casing of one code unit, for the ASCII letters. */
  function UpperAscii(c: char): char
  {
    if 'a' <= c <= 'z' then (c as int - 32) as char else c
  }

  /** `String.ToUpper()` restricted to ASCII letters; keeps the length. */
  function ToUpper(s: string): (r: string)
    ensures |r| == |s|
    ensures forall i :: 0 <= i < |s| ==> r[i] == UpperAscii(s[i])
  {
    if s == [] then [] else [UpperAscii(s[0])] + ToUpper(s[1..])
  }

  /** `String.Equals(s, t, StringComparison.OrdinalIgnoreCase)`, with ASCII case folding. */
  predicate EqualsIgnoreCase(s: string, t: string)
  {
    |s| == |t| && forall i :: 0 <= i < |s| ==> UpperAscii(s[i]) == UpperAscii(t[i])
  }

  /**
   * Comparing the upper-cased string with an upper-case keyword and comparing the two
   * case-insensitively accept the same strings.
   */
  lemma UpperEqualsIffIgnoreCase(s: string, keyword: string)
    requires ToUpper(keyword) == keyword
    ensures ToUpper(s) == keyword <==> EqualsIgnoreCase(s, keyword)
  {
    if EqualsIgnoreCase(s, keyword) {
      forall i | 0 <= i < |s| ensures ToUpper(s)[i] == keyword[i] {
        assert UpperAscii(keyword[i]) == ToUpper(keyword)[i];
      }
    }
    if ToUpper(s) == keyword {
      forall i | 0 <= i < |s| ensures UpperAscii(s[i]) == UpperAscii(keyword[i]) {
        assert UpperAscii(keyword[i]) == ToUpper(keyword)[i];
      }
    }
  }
}
