/** The handful of Python string operations the crawler uses, on seq<char>. */
module Text {

  /** Python's str.isspace(): the characters strip() removes and regex \s matches. */
  predicate IsSpace(c: char)
  {
    c == ' ' || ('\t' <= c <= '\r') || ('\U{1C}' <= c <= '\U{1F}') || c == '\U{85}' ||
    c == '\U{A0}' || c == '\U{1680}' || ('\U{2000}' <= c <= '\U{200A}') ||
    c == '\U{2028}' || c == '\U{2029}' || c == '\U{202F}' || c == '\U{205F}' || c == '\U{3000}'
  }

  predicate IsDigit(c: char)
  {
    '0' <= c <= '9'
  }

  predicate IsSlash(c: char)
  {
    c == '/'
  }

  /** s.lstrip(chars), with the stripped characters given by a predicate. */
  function LStrip(s: string, drop: char -> bool): (r: string)
    ensures |r| <= |s| && r == s[|s| - |r|..]
    ensures r == [] || !drop(r[0])
  {
    if s != [] && drop(s[0]) then LStrip(s[1..], drop) else s
  }

  /** s.rstrip(chars). */
  function RStrip(s: string, drop: char -> bool): (r: string)
    ensures r <= s
    ensures r == [] || !drop(r[|r| - 1])
  {
    if s != [] && drop(s[|s| - 1]) then RStrip(s[..|s| - 1], drop) else s
  }

  /** s.strip(chars): both ends. */
  function Strip(s: string, drop: char -> bool): (r: string)
  {
    RStrip(LStrip(s, drop), drop)
  }

  /** s.strip() with no argument. */
  function StripSpace(s: string): (r: string)
  {
    Strip(s, IsSpace)
  }

  function EndsWith(s: string, suffix: string): bool
  {
    |suffix| <= |s| && s[|s| - |suffix|..] == suffix
  }

  /** s.split(c)[0]: everything before the first c. */
  function Before(s: string, c: char): (r: string)
    ensures r <= s && c !in r
    ensures |r| < |s| ==> s[|r|] == c
  {
    if s == [] || s[0] == c then [] else [s[0]] + Before(s[1..], c)
  }

  /** The longest prefix of s holding no character that satisfies stop. */
  function TakeUntil(s: string, stop: char -> bool): (r: string)
    ensures r <= s
    ensures forall i :: 0 <= i < |r| ==> !stop(r[i])
    ensures |r| < |s| ==> stop(s[|r|])
  {
    if s == [] || stop(s[0]) then [] else [s[0]] + TakeUntil(s[1..], stop)
  }

  /** Python's `needle in haystack` for strings. */
  predicate Contains(haystack: string, needle: string)
  {
    exists i | 0 <= i <= |haystack| - |needle| :: OccursAt(haystack, needle, i)
  }

  predicate OccursAt(haystack: string, needle: string, i: int)
  {
    0 <= i <= |haystack| - |needle| && haystack[i..i + |needle|] == needle
  }

  /** s.replace(a, b) for single characters. */
  function ReplaceChar(s: string, a: char, b: char): (r: string)
    ensures |r| == |s|
    ensures forall i :: 0 <= i < |s| ==> r[i] == if s[i] == a then b else s[i]
  {
    if s == [] then [] else [if s[0] == a then b else s[0]] + ReplaceChar(s[1..], a, b)
  }

  /** s.replace(c, ''). */
  function RemoveChar(s: string, c: char): (r: string)
    ensures c !in r
    ensures forall x :: x != c ==> (x in r <==> x in s)
  {
    if s == [] then [] else (if s[0] == c then [] else [s[0]]) + RemoveChar(s[1..], c)
  }

  /** re.sub(r'\D', '', s): the decimal digits of s, in order. */
  function DigitsOf(s: string): (r: string)
    ensures forall i :: 0 <= i < |r| ==> IsDigit(r[i])
    ensures |r| <= |s|
  {
    if s == [] then [] else (if IsDigit(s[0]) then [s[0]] else []) + DigitsOf(s[1..])
  }

  predicate AllDigits(s: string)
  {
    forall i :: 0 <= i < |s| ==> IsDigit(s[i])
  }

  /** The value of a string of decimal digits (leading zeros allowed). */
  function DecimalValue(ds: string): (n: nat)
    requires AllDigits(ds)
  {
    if ds == [] then 0
    else 10 * DecimalValue(ds[..|ds| - 1]) + (ds[|ds| - 1] as int - '0' as int)
  }

  function Pow10(k: nat): (p: nat)
    ensures p >= 1
  {
    if k == 0 then 1 else 10 * Pow10(k - 1)
  }

  // Facts about DigitsOf: the operations that clean a count only move or
  // drop characters that are not digits.

  lemma {:induction false} DigitsOfConcat(a: string, b: string)
    ensures DigitsOf(a + b) == DigitsOf(a) + DigitsOf(b)
  {
    if a == [] {
      assert a + b == b;
    } else {
      assert (a + b)[1..] == a[1..] + b;
      DigitsOfConcat(a[1..], b);
    }
  }

  lemma {:induction false} DigitsOfStripSpace(s: string)
    ensures DigitsOf(StripSpace(s)) == DigitsOf(s)
  {
    DigitsOfLStripSpace(s);
    DigitsOfRStripSpace(LStrip(s, IsSpace));
  }

  lemma {:induction false} DigitsOfLStripSpace(s: string)
    ensures DigitsOf(LStrip(s, IsSpace)) == DigitsOf(s)
  {
    if s != [] && IsSpace(s[0]) {
      DigitsOfLStripSpace(s[1..]);
    }
  }

  lemma {:induction false} DigitsOfRStripSpace(s: string)
    ensures DigitsOf(RStrip(s, IsSpace)) == DigitsOf(s)
  {
    if s != [] && IsSpace(s[|s| - 1]) {
      var init := s[..|s| - 1];
      DigitsOfRStripSpace(init);
      assert s == init + [s[|s| - 1]];
      DigitsOfConcat(init, [s[|s| - 1]]);
    }
  }

  lemma {:induction false} DigitsOfReplaceChar(s: string, a: char, b: char)
    requires !IsDigit(a) && !IsDigit(b)
    ensures DigitsOf(ReplaceChar(s, a, b)) == DigitsOf(s)
  {
    if s != [] {
      DigitsOfReplaceChar(s[1..], a, b);
    }
  }

  lemma {:induction false} DigitsOfRemoveChar(s: string, c: char)
    requires !IsDigit(c)
    ensures DigitsOf(RemoveChar(s, c)) == DigitsOf(s)
  {
    if s != [] {
      DigitsOfRemoveChar(s[1..], c);
      DigitsOfConcat(if s[0] == c then [] else [s[0]], RemoveChar(s[1..], c));
    }
  }

  lemma StripSpaceKeepsAbsence(s: string, c: char)
    requires c !in s
    ensures c !in StripSpace(s)
  {
    var l := LStrip(s, IsSpace);
    assert forall i :: 0 <= i < |l| ==> l[i] == s[|s| - |l| + i];
  }

  lemma StripSpaceUnchanged(s: string)
    requires s != [] && !IsSpace(s[0]) && !IsSpace(s[|s| - 1])
    ensures StripSpace(s) == s
  {
  }

  lemma {:induction false} ReplaceAbsent(s: string, a: char, b: char)
    requires a !in s
    ensures ReplaceChar(s, a, b) == s
  {
    if s != [] { ReplaceAbsent(s[1..], a, b); }
  }

  lemma {:induction false} RemoveAbsent(s: string, c: char)
    requires c !in s
    ensures RemoveChar(s, c) == s
  {
    if s != [] { RemoveAbsent(s[1..], c); }
  }

  lemma {:induction false} DigitsOfAllDigits(s: string)
    requires AllDigits(s)
    ensures DigitsOf(s) == s
  {
    if s != [] { DigitsOfAllDigits(s[1..]); }
  }

  lemma {:induction false} BeforeAbsent(s: string, c: char)
    requires c !in s
    ensures Before(s, c) == s
  {
    if s != [] { BeforeAbsent(s[1..], c); }
  }

  lemma {:induction false} BeforeFirst(a: string, c: char, b: string)
    requires c !in a
    ensures Before(a + [c] + b, c) == a
  {
    if a == [] {
      assert (a + [c] + b)[0] == c;
    } else {
      assert (a + [c] + b)[1..] == a[1..] + [c] + b;
      BeforeFirst(a[1..], c, b);
    }
  }

  lemma {:induction false} LStripKeeps(s: string, drop: char -> bool, c: char)
    requires c in s && !drop(c)
    ensures c in LStrip(s, drop)
  {
    if s[0] != c {
      assert c in s[1..];
      LStripKeeps(s[1..], drop, c);
    }
  }

  lemma {:induction false} RStripKeeps(s: string, drop: char -> bool, c: char)
    requires c in s && !drop(c)
    ensures c in RStrip(s, drop)
  {
    if s[|s| - 1] != c {
      assert c in s[..|s| - 1];
      RStripKeeps(s[..|s| - 1], drop, c);
    }
  }

  /** strip() only removes whitespace. */
  lemma StripSpaceKeeps(s: string, c: char)
    requires c in s && !IsSpace(c)
    ensures c in StripSpace(s)
  {
    LStripKeeps(s, IsSpace, c);
    RStripKeeps(LStrip(s, IsSpace), IsSpace, c);
  }

  lemma ContainsItself(s: string)
    ensures Contains(s, s)
  {
    assert OccursAt(s, s, 0);
  }
}
