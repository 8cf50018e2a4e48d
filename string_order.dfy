/** Python's ordering of str values (code point by code point, a proper prefix
    first) and the two ways the crawler sorts lists of URLs: sorted(set(xs))
    and sorted(xs). */
module StringOrder {

  predicate Less(a: string, b: string)
  {
    if a == [] then b != []
    else b != [] && (a[0] < b[0] || (a[0] == b[0] && Less(a[1..], b[1..])))
  }

  lemma {:induction false} LessIrreflexive(a: string)
    ensures !Less(a, a)
  {
    if a != [] { LessIrreflexive(a[1..]); }
  }

  lemma {:induction false} LessTransitive(a: string, b: string, c: string)
    requires Less(a, b) && Less(b, c)
    ensures Less(a, c)
  {
    if a != [] && b != [] && c != [] && a[0] == b[0] == c[0] {
      LessTransitive(a[1..], b[1..], c[1..]);
    }
  }

  lemma {:induction false} LessTotal(a: string, b: string)
    ensures a == b || Less(a, b) || Less(b, a)
  {
    if a != [] && b != [] && a[0] == b[0] {
      LessTotal(a[1..], b[1..]);
      if a[1..] == b[1..] {
        assert a == [a[0]] + a[1..] && b == [b[0]] + b[1..];
      }
    }
  }

  lemma {:induction false} LessAsymmetric(a: string, b: string)
    requires Less(a, b)
    ensures !Less(b, a)
  {
    if Less(b, a) {
      LessTransitive(a, b, a);
      LessIrreflexive(a);
    }
  }

  /** What sorted(set(xs)) produces: every element smaller than the next. */
  predicate StrictlyIncreasing(s: seq<string>)
  {
    forall i, j :: 0 <= i < j < |s| ==> Less(s[i], s[j])
  }

  /** What sorted(xs) produces: no element smaller than one before it. */
  predicate NonDecreasing(s: seq<string>)
  {
    forall i, j :: 0 <= i < j < |s| ==> !Less(s[j], s[i])
  }

  lemma StrictlyIncreasingIsDistinct(s: seq<string>, i: int, j: int)
    requires StrictlyIncreasing(s) && 0 <= i < |s| && 0 <= j < |s| && i != j
    ensures s[i] != s[j]
  {
    if i < j { LessIrreflexive(s[i]); } else { LessIrreflexive(s[j]); }
  }

  /** Adds x to a strictly increasing list unless it is already there. */
  function InsertDistinct(x: string, s: seq<string>): (r: seq<string>)
    requires StrictlyIncreasing(s)
    ensures StrictlyIncreasing(r)
    ensures forall y :: y in r <==> y == x || y in s
  {
    if s == [] then [x]
    else if x == s[0] then s
    else if Less(x, s[0]) then
      assert forall j :: 0 < j < |s| ==> Less(x, s[j]) by {
        forall j | 0 < j < |s| ensures Less(x, s[j]) { LessTransitive(x, s[0], s[j]); }
      }
      [x] + s
    else
      LessTotal(x, s[0]);
      var rest := InsertDistinct(x, s[1..]);
      assert forall y :: y in rest ==> Less(s[0], y);
      [s[0]] + rest
  }

  /** sorted(set(xs)). */
  function SortedDistinct(xs: seq<string>): (r: seq<string>)
    ensures StrictlyIncreasing(r)
    ensures forall y :: y in r <==> y in xs
  {
    if xs == [] then [] else InsertDistinct(xs[|xs| - 1], SortedDistinct(xs[..|xs| - 1]))
  }

  /** Adds x to a non-decreasing list, after any element equal to it. */
  function Insert(x: string, s: seq<string>): (r: seq<string>)
    requires NonDecreasing(s)
    ensures NonDecreasing(r)
    ensures multiset(r) == multiset(s) + multiset{x}
  {
    if s == [] then [x]
    else if Less(x, s[0]) then
      InsertFirst(x, s);
      [x] + s
    else
      var rest := Insert(x, s[1..]);
      InsertAfterHead(x, s, rest);
      [s[0]] + rest
  }

  lemma InsertFirst(x: string, s: seq<string>)
    requires NonDecreasing(s) && s != [] && Less(x, s[0])
    ensures NonDecreasing([x] + s)
  {
    forall j | 0 < j < |s| ensures !Less(s[j], x) {
      if Less(s[j], x) { LessTransitive(s[j], x, s[0]); }
    }
    LessAsymmetric(x, s[0]);
  }

  lemma InsertAfterHead(x: string, s: seq<string>, rest: seq<string>)
    requires NonDecreasing(s) && s != [] && !Less(x, s[0])
    requires NonDecreasing(rest) && multiset(rest) == multiset(s[1..]) + multiset{x}
    ensures NonDecreasing([s[0]] + rest)
    ensures multiset([s[0]] + rest) == multiset(s) + multiset{x}
  {
    forall y | y in rest ensures !Less(y, s[0]) {
      assert y in multiset(rest);
      if y != x { assert y in multiset(s[1..]); }
    }
    assert s == [s[0]] + s[1..];
  }

  /** sorted(xs): a non-decreasing permutation of xs, duplicates kept. */
  function Sorted(xs: seq<string>): (r: seq<string>)
    ensures NonDecreasing(r)
    ensures multiset(r) == multiset(xs)
  {
    if xs == [] then []
    else
      assert xs == xs[..|xs| - 1] + [xs[|xs| - 1]];
      Insert(xs[|xs| - 1], Sorted(xs[..|xs| - 1]))
  }
}
