/**
 * The pieces of Python's string library that the handlers rely on:
 * whitespace as `str.isspace` defines it, `strip()`, `split()`, the `\w`
 * class of the `re` module (ASCII only), `lower()` (ASCII only), `join`,
 * the `in` substring test, `startswith`, `replace` and `str(int)`.
 */
module Strings {

  /** Python's `str.isspace` for one character: what `strip()` and `split()` remove. */
  predicate IsSpace(c: char) {
    || ('\t' <= c <= '\r')
    || ('\U{1C}' <= c <= ' ')
    || c == '\U{85}' || c == '\U{A0}' || c == '\U{1680}'
    || ('\U{2000}' <= c <= '\U{200A}')
    || c == '\U{2028}' || c == '\U{2029}' || c == '\U{202F}' || c == '\U{205F}' || c == '\U{3000}'
  }

  predicate IsAsciiLetter(c: char) {
    ('a' <= c <= 'z') || ('A' <= c <= 'Z')
  }

  predicate IsAsciiDigit(c: char) {
    '0' <= c <= '9'
  }

  /** The character class `[a-zA-Z0-9]`. */
  predicate IsAsciiAlnum(c: char) {
    IsAsciiLetter(c) || IsAsciiDigit(c)
  }

  /** The regular-expression class `\w`, restricted to ASCII: letters, digits and `_`. */
  predicate IsWordChar(c: char) {
    IsAsciiAlnum(c) || c == '_'
  }

  predicate NotSpace(c: char) {
    !IsSpace(c)
  }

  /** Every character of `s` satisfies `p`. */
  predicate AllChars(s: string, p: char -> bool) {
    forall i :: 0 <= i < |s| ==> p(s[i])
  }

  /** ASCII `lower()` of one character. */
  function LowerChar(c: char): char {
    if 'A' <= c <= 'Z' then (c as int + 32) as char else c
  }

  /** ASCII `lower()`. */
  function Lower(s: string): (r: string)
    ensures |r| == |s|
  {
    seq(|s|, i requires 0 <= i < |s| => LowerChar(s[i]))
  }

  /** The characters of `s` that satisfy `keep`, in order. */
  function Filter(s: string, keep: char -> bool): string
    decreases |s|
  {
    if s == [] then [] else (if keep(s[0]) then [s[0]] else []) + Filter(s[1..], keep)
  }

  /** The concatenation of a list of strings (`"".join(ws)`). */
  function Concat(ws: seq<string>): string
    decreases |ws|
  {
    if ws == [] then [] else ws[0] + Concat(ws[1..])
  }

  /** `sep.join(ws)`. */
  function Join(ws: seq<string>, sep: string): string
    decreases |ws|
  {
    if ws == [] then []
    else if |ws| == 1 then ws[0]
    else ws[0] + sep + Join(ws[1..], sep)
  }

  /** The length of the longest prefix of `s` whose characters satisfy `inToken`. */
  function RunLength(s: string, inToken: char -> bool): (n: nat)
    ensures n <= |s|
    ensures forall i :: 0 <= i < n ==> inToken(s[i])
    ensures n < |s| ==> !inToken(s[n])
    decreases |s|
  {
    if s == [] || !inToken(s[0]) then 0 else 1 + RunLength(s[1..], inToken)
  }

  /**
   * The maximal runs of characters satisfying `inToken`, left to right.
   * With `IsWordChar` this is `re.findall(r'\w+', s)`; with `NotSpace`
   * it is `s.split()`.
   */
  function Tokens(s: string, inToken: char -> bool): seq<string>
    decreases |s|
  {
    if s == [] then []
    else if !inToken(s[0]) then Tokens(s[1..], inToken)
    else
      var n := RunLength(s, inToken);
      [s[..n]] + Tokens(s[n..], inToken)
  }

  /** `re.findall(r'\w+', s)` */
  function Words(s: string): seq<string> {
    Tokens(s, IsWordChar)
  }

  /** `s.split()` with no separator: runs of non-whitespace. */
  function SplitWhitespace(s: string): seq<string> {
    Tokens(s, NotSpace)
  }

  /** Every token is non-empty and made only of token characters. */
  predicate WellFormedTokens(ws: seq<string>, inToken: char -> bool) {
    forall k :: 0 <= k < |ws| ==> ws[k] != [] && AllChars(ws[k], inToken)
  }

  /** `s.lstrip()` */
  function StripLeading(s: string): (r: string)
    ensures |r| <= |s| && r == s[|s| - |r|..]
    ensures forall i :: 0 <= i < |s| - |r| ==> IsSpace(s[i])
    ensures r != [] ==> !IsSpace(r[0])
    decreases |s|
  {
    if s != [] && IsSpace(s[0]) then StripLeading(s[1..]) else s
  }

  /** `s.rstrip()` */
  function StripTrailing(s: string): (r: string)
    ensures |r| <= |s| && r == s[..|r|]
    ensures forall i :: |r| <= i < |s| ==> IsSpace(s[i])
    ensures r != [] ==> !IsSpace(r[|r| - 1])
    decreases |s|
  {
    if s != [] && IsSpace(s[|s| - 1]) then StripTrailing(s[..|s| - 1]) else s
  }

  /** `s.strip()`: empty exactly when `s` is all whitespace, and never begins or ends with whitespace. */
  function Strip(s: string): (r: string)
    ensures |r| <= |s|
    ensures r == [] <==> forall i :: 0 <= i < |s| ==> IsSpace(s[i])
    ensures r != [] ==> !IsSpace(r[0]) && !IsSpace(r[|r| - 1])
  {
    var l := StripLeading(s);
    var r := StripTrailing(l);
    assert r != [] ==> !IsSpace(r[0]) by {
      if r != [] {
        assert r[0] == l[0];
      }
    }
    r
  }

  function StartsWith(s: string, prefix: string): bool {
    |prefix| <= |s| && s[..|prefix|] == prefix
  }

  /** Python's `sub in s`. */
  function Contains(s: string, sub: string): bool
    decreases |s|
  {
    StartsWith(s, sub) || (s != [] && Contains(s[1..], sub))
  }

  /** Python's `s[0:n]` for `n >= 0`: slicing past the end stops at the end. */
  function Take(s: string, n: nat): (r: string)
    ensures |r| <= n
  {
    if n <= |s| then s[..n] else s
  }

  /** `s.replace(old, new)` for a single-character `old` and `new`. */
  function ReplaceChar(s: string, from: char, to: char): (r: string)
    ensures |r| == |s|
  {
    seq(|s|, i requires 0 <= i < |s| => if s[i] == from then to else s[i])
  }

  /** `s.replace(pattern, replacement)`: every non-overlapping occurrence, left to right. */
  function ReplaceAll(s: string, pattern: string, replacement: string): string
    requires pattern != []
    decreases |s|
  {
    if s == [] then []
    else if StartsWith(s, pattern) then replacement + ReplaceAll(s[|pattern|..], pattern, replacement)
    else [s[0]] + ReplaceAll(s[1..], pattern, replacement)
  }

  function DigitChar(d: nat): char
    requires d < 10
  {
    "0123456789"[d]
  }

  /** `str(n)` for a natural number. */
  function NatToString(n: nat): (r: string)
    ensures r != [] && AllChars(r, IsAsciiDigit)
    decreases n
  {
    if n < 10 then [DigitChar(n)] else NatToString(n / 10) + [DigitChar(n % 10)]
  }

  /** `str(i)` for an integer. */
  function IntToString(i: int): string {
    if i < 0 then "-" + NatToString(-i) else NatToString(i)
  }

  // ---------------------------------------------------------------------------
  // Lemmas
  // ---------------------------------------------------------------------------

  /** Every token is a non-empty run of token characters. */
  lemma {:induction false} TokensWellFormed(s: string, inToken: char -> bool)
    ensures WellFormedTokens(Tokens(s, inToken), inToken)
    decreases |s|
  {
    if s == [] {
    } else if !inToken(s[0]) {
      TokensWellFormed(s[1..], inToken);
    } else {
      var n := RunLength(s, inToken);
      TokensWellFormed(s[n..], inToken);
      var rest := Tokens(s[n..], inToken);
      assert Tokens(s, inToken) == [s[..n]] + rest;
      forall k | 0 <= k < |Tokens(s, inToken)|
        ensures Tokens(s, inToken)[k] != [] && AllChars(Tokens(s, inToken)[k], inToken)
      {
        if k > 0 {
          assert Tokens(s, inToken)[k] == rest[k - 1];
        }
      }
    }
  }

  lemma {:induction false} FilterRun(s: string, inToken: char -> bool)
    ensures var n := RunLength(s, inToken); Filter(s, inToken) == s[..n] + Filter(s[n..], inToken)
    decreases |s|
  {
    if s != [] && inToken(s[0]) {
      FilterRun(s[1..], inToken);
      var m := RunLength(s[1..], inToken);
      assert s[1..][..m] == s[1..1 + m];
      assert s[1..][m..] == s[1 + m..];
      assert [s[0]] + s[1..1 + m] == s[..1 + m];
    }
  }

  /** Tokenising drops exactly the separator characters: the tokens put back together are the token characters of the input, in their original order. */
  lemma {:induction false} TokensConcat(s: string, inToken: char -> bool)
    ensures Concat(Tokens(s, inToken)) == Filter(s, inToken)
    decreases |s|
  {
    if s == [] {
    } else if !inToken(s[0]) {
      TokensConcat(s[1..], inToken);
    } else {
      var n := RunLength(s, inToken);
      TokensConcat(s[n..], inToken);
      FilterRun(s, inToken);
      var ts := [s[..n]] + Tokens(s[n..], inToken);
      assert ts[1..] == Tokens(s[n..], inToken);
    }
  }

  lemma RunLengthStops(a: string, c: char, b: string, inToken: char -> bool)
    requires !inToken(c)
    ensures RunLength(a + [c] + b, inToken) == RunLength(a, inToken)
  {
    var s := a + [c] + b;
    var n, m := RunLength(s, inToken), RunLength(a, inToken);
    assert s[|a|] == c;
    assert n <= |a|;
    assert forall i :: 0 <= i < |a| ==> s[i] == a[i];
  }

  /** A separator character splits tokenising into two independent halves. */
  lemma {:induction false} TokensSplit(a: string, c: char, b: string, inToken: char -> bool)
    requires !inToken(c)
    ensures Tokens(a + [c] + b, inToken) == Tokens(a, inToken) + Tokens(b, inToken)
    decreases |a|
  {
    var s := a + [c] + b;
    if a == [] {
      assert s[1..] == b;
    } else if !inToken(a[0]) {
      assert s[1..] == a[1..] + [c] + b;
      TokensSplit(a[1..], c, b, inToken);
    } else {
      var n := RunLength(s, inToken);
      RunLengthStops(a, c, b, inToken);
      assert s[..n] == a[..n];
      assert s[n..] == a[n..] + [c] + b;
      TokensSplit(a[n..], c, b, inToken);
    }
  }

  /** A non-empty run of token characters is a single token. */
  lemma TokensSingle(w: string, inToken: char -> bool)
    requires w != [] && AllChars(w, inToken)
    ensures Tokens(w, inToken) == [w]
  {
    assert inToken(w[0]);
    var n := RunLength(w, inToken);
    assert n == |w|;
    assert w[..n] == w && w[n..] == [];
  }

  /** Joining words of token characters with a token-character separator stays inside the character class. */
  lemma {:induction false} JoinAllChars(ws: seq<string>, sep: string, p: char -> bool)
    requires forall k :: 0 <= k < |ws| ==> AllChars(ws[k], p)
    requires AllChars(sep, p)
    ensures AllChars(Join(ws, sep), p)
    decreases |ws|
  {
    if |ws| > 1 {
      JoinAllChars(ws[1..], sep, p);
      var rest := Join(ws[1..], sep);
      var j := ws[0] + sep + rest;
      forall i | 0 <= i < |j| ensures p(j[i]) {
        if i < |ws[0]| {
          assert j[i] == ws[0][i];
        } else if i < |ws[0]| + |sep| {
          assert j[i] == sep[i - |ws[0]|];
        } else {
          assert j[i] == rest[i - |ws[0]| - |sep|];
        }
      }
    }
  }

  /** `sub in (a + sub + b)` */
  lemma {:induction false} ContainsMiddle(a: string, sub: string, b: string)
    ensures Contains(a + sub + b, sub)
    decreases |a|
  {
    if a == [] {
      assert (a + sub + b)[..|sub|] == sub;
    } else {
      assert (a + sub + b)[1..] == a[1..] + sub + b;
      ContainsMiddle(a[1..], sub, b);
    }
  }

  /** `sub in (a + (sub + b))` */
  lemma ContainsInside(a: string, sub: string, b: string)
    ensures Contains(a + (sub + b), sub)
  {
    assert a + (sub + b) == a + sub + b;
    ContainsMiddle(a, sub, b);
  }

  /** An occurrence at position `j` makes `sub in s` true. */
  lemma {:induction false} ContainsAt(s: string, j: nat, sub: string)
    requires j + |sub| <= |s| && s[j..j + |sub|] == sub
    ensures Contains(s, sub)
    decreases j
  {
    if j == 0 {
      assert s[..|sub|] == sub;
    } else {
      assert s[1..][j - 1..j - 1 + |sub|] == s[j..j + |sub|];
      ContainsAt(s[1..], j - 1, sub);
    }
  }

  /** `sub in b` implies `sub in (a + b)`. */
  lemma {:induction false} ContainsSuffix(a: string, b: string, sub: string)
    requires Contains(b, sub)
    ensures Contains(a + b, sub)
    decreases |a|
  {
    if a == [] {
      assert a + b == b;
    } else {
      assert (a + b)[1..] == a[1..] + b;
      ContainsSuffix(a[1..], b, sub);
    }
  }

  /** `sub in a` implies `sub in (a + b)`. */
  lemma {:induction false} ContainsPrefix(a: string, b: string, sub: string)
    requires Contains(a, sub)
    ensures Contains(a + b, sub)
    decreases |a|
  {
    if StartsWith(a, sub) {
      assert (a + b)[..|sub|] == a[..|sub|];
    } else {
      assert (a + b)[1..] == a[1..] + b;
      ContainsPrefix(a[1..], b, sub);
    }
  }

  /** Every joined word occurs in the joined string. */
  lemma {:induction false} JoinContains(ws: seq<string>, sep: string, k: nat)
    requires k < |ws|
    ensures Contains(Join(ws, sep), ws[k])
    decreases |ws|
  {
    if |ws| == 1 {
      ContainsMiddle([], ws[0], []);
      assert [] + ws[0] + [] == ws[0];
    } else if k == 0 {
      ContainsMiddle([], ws[0], sep + Join(ws[1..], sep));
      assert [] + ws[0] + (sep + Join(ws[1..], sep)) == Join(ws, sep);
    } else {
      JoinContains(ws[1..], sep, k - 1);
      ContainsSuffix(ws[0] + sep, Join(ws[1..], sep), ws[k]);
    }
  }

  /** Replacing a pattern that does not occur changes nothing. */
  lemma {:induction false} ReplaceAllAbsent(s: string, pattern: string, replacement: string)
    requires pattern != [] && !Contains(s, pattern)
    ensures ReplaceAll(s, pattern, replacement) == s
    decreases |s|
  {
    if s != [] {
      ReplaceAllAbsent(s[1..], pattern, replacement);
      assert s == [s[0]] + s[1..];
    }
  }

  /** A leading occurrence is replaced, and the rest is rewritten on its own. */
  lemma ReplaceAllLeading(pattern: string, rest: string, replacement: string)
    requires pattern != []
    ensures ReplaceAll(pattern + rest, pattern, replacement) == replacement + ReplaceAll(rest, pattern, replacement)
  {
    var s := pattern + rest;
    assert s[..|pattern|] == pattern;
    assert s[|pattern|..] == rest;
  }

  /** A concatenation starts with its first part. */
  lemma OpensWith(head: string, tail: string)
    ensures StartsWith(head + tail, head)
  {
    assert (head + tail)[..|head|] == head;
  }

  /** A string shorter than `sub` does not contain it. */
  lemma {:induction false} ShorterLacks(s: string, sub: string)
    requires |s| < |sub|
    ensures !Contains(s, sub)
    decreases |s|
  {
    if s != [] {
      ShorterLacks(s[1..], sub);
    }
  }

  /** A string no longer than `sub` whose first character differs from it does not contain it. */
  lemma LacksWhenFirstDiffers(s: string, sub: string)
    requires s != [] && |s| <= |sub| && s[0] != sub[0]
    ensures !Contains(s, sub)
  {
    ShorterLacks(s[1..], sub);
    assert s[..|s|] == s;
  }
}
