/** The part of urllib.parse.urlparse the crawler relies on: cleaning a URL
    as urlsplit does, then splitting it into scheme, network location, path
    and query. */
module Urls {
  import opened Text

  datatype Url = Url(scheme: string, netloc: string, path: string, query: string)

  predicate IsAsciiLetter(c: char)
  {
    ('a' <= c <= 'z') || ('A' <= c <= 'Z')
  }

  predicate IsSchemeChar(c: char)
  {
    IsAsciiLetter(c) || IsDigit(c) || c == '+' || c == '-' || c == '.'
  }

  predicate EndsNetloc(c: char)
  {
    c == '/' || c == '?' || c == '#'
  }

  /** A scheme is a letter followed by scheme characters, ended by the first ':'. */
  predicate HasScheme(s: string)
  {
    var head := Before(s, ':');
    0 < |head| < |s| && IsAsciiLetter(head[0]) &&
    forall i :: 0 <= i < |head| ==> IsSchemeChar(head[i])
  }

  /** A C0 control character or a space: what urlsplit strips from the
      front of a URL. */
  predicate IsC0OrSpace(c: char)
  {
    c <= ' '
  }

  /** Free of the tab, carriage return and line feed urlsplit deletes. */
  predicate NoUnsafe(s: string)
  {
    '\t' !in s && '\r' !in s && '\n' !in s
  }

  /** What urlsplit splits: the URL with its leading C0 controls and spaces
      stripped, then every tab, carriage return and line feed deleted. */
  function Cleaned(s: string): (r: string)
    ensures NoUnsafe(r)
  {
    DeleteUnsafe(StripLeading(s))
  }

  /** url.lstrip(_WHATWG_C0_CONTROL_OR_SPACE) */
  function StripLeading(s: string): (r: string)
    ensures |r| <= |s|
    ensures r == [] || !IsC0OrSpace(r[0])
  {
    if s != [] && IsC0OrSpace(s[0]) then StripLeading(s[1..]) else s
  }

  predicate IsUnsafe(c: char)
  {
    c == '\t' || c == '\r' || c == '\n'
  }

  /** The three replace(b, "") calls of urlsplit, in one pass: every tab,
      carriage return and line feed deleted, the rest kept in order. */
  function DeleteUnsafe(s: string): (r: string)
    ensures NoUnsafe(r)
    ensures |r| <= |s|
  {
    if s == [] then []
    else (if IsUnsafe(s[0]) then [] else [s[0]]) + DeleteUnsafe(s[1..])
  }

  /** urlparse(s), without the ';' parameter split (see README): the parts
      are split from the cleaned URL, so none of them holds a tab, a
      carriage return or a line feed. */
  function UrlParse(s: string): (u: Url)
    ensures '?' !in u.path && '#' !in u.path && '#' !in u.query
    ensures '/' !in u.netloc && '?' !in u.netloc && '#' !in u.netloc
    ensures NoUnsafe(u.netloc) && NoUnsafe(u.path) && NoUnsafe(u.query)
  {
    var t := Cleaned(s);
    SplitParts(t)
  }

  /** The scheme/netloc/path/query split itself; a URL free of tab,
      carriage return and line feed splits into parts free of them. */
  function SplitParts(s: string): (u: Url)
    ensures '?' !in u.path && '#' !in u.path && '#' !in u.query
    ensures '/' !in u.netloc && '?' !in u.netloc && '#' !in u.netloc
    ensures NoUnsafe(s) ==> NoUnsafe(u.netloc) && NoUnsafe(u.path) && NoUnsafe(u.query)
  {
    var scheme := if HasScheme(s) then Before(s, ':') else "";
    var rest := if HasScheme(s) then Drop(s, |scheme| + 1) else s;
    var inner := if "//" <= rest then Drop(rest, 2) else rest;
    var netloc := if "//" <= rest then TakeUntil(inner, EndsNetloc) else "";
    PrefixSafe(netloc, inner);
    SplitTail(scheme, netloc, Drop(inner, |netloc|))
  }

  /** What follows the network location: the path up to '?' or '#', and the
      query between '?' and '#'. */
  function SplitTail(scheme: string, netloc: string, tail: string): (u: Url)
    ensures u.scheme == scheme && u.netloc == netloc
    ensures '?' !in u.path && '#' !in u.path && '#' !in u.query
    ensures NoUnsafe(tail) ==> NoUnsafe(u.path) && NoUnsafe(u.query)
  {
    var noFragment := Before(tail, '#');
    var path := Before(noFragment, '?');
    PrefixSafe(noFragment, tail);
    PrefixSafe(path, noFragment);
    var query := if |path| < |noFragment| then Drop(noFragment, |path| + 1) else "";
    Url(scheme, netloc, path, query)
  }

  /** s[k:] */
  function Drop(s: string, k: int): (r: string)
    requires 0 <= k <= |s|
    ensures r == s[k..]
    ensures NoUnsafe(s) ==> NoUnsafe(r)
  {
    assert forall i :: 0 <= i < |s| - k ==> s[k..][i] == s[k + i];
    s[k..]
  }

  lemma PrefixSafe(a: string, s: string)
    requires a <= s
    ensures NoUnsafe(s) ==> NoUnsafe(a)
  {
    assert forall i :: 0 <= i < |a| ==> a[i] == s[i];
  }

  /** A tab, carriage return or line feed inside a URL (after its first
      character) changes nothing urlparse returns. */
  lemma UnsafeIgnored(a: string, c: char, b: string)
    requires IsUnsafe(c) && a != [] && !IsC0OrSpace(a[0])
    ensures UrlParse(a + [c] + b) == UrlParse(a + b)
  {
    CleanedIgnores(a, c, b);
  }

  lemma CleanedIgnores(a: string, c: char, b: string)
    requires IsUnsafe(c) && a != [] && !IsC0OrSpace(a[0])
    ensures Cleaned(a + [c] + b) == Cleaned(a + b)
  {
    NothingLeading(a + [c] + b, a[0]);
    NothingLeading(a + b, a[0]);
    DeleteIgnores(a, c, b);
  }

  lemma NothingLeading(s: string, first: char)
    requires s != [] && s[0] == first && !IsC0OrSpace(first)
    ensures StripLeading(s) == s
  {
  }

  lemma {:induction false} DeleteIgnores(a: string, c: char, b: string)
    requires IsUnsafe(c)
    ensures DeleteUnsafe(a + [c] + b) == DeleteUnsafe(a + b)
  {
    if a == [] {
      assert a + [c] + b == [c] + b && a + b == b;
      assert ([c] + b)[1..] == b;
    } else {
      assert (a + [c] + b)[0] == a[0] && (a + b)[0] == a[0];
      assert (a + [c] + b)[1..] == a[1..] + [c] + b;
      assert (a + b)[1..] == a[1..] + b;
      DeleteIgnores(a[1..], c, b);
    }
  }
}
