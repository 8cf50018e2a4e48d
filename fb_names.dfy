/** The string helpers of the Facebook crawler, crawler.py: store names,
    the seed list, the friend count shown on a profile and the filter that
    drops links back to the visited profile. */
module FbNames {
  import opened Outcome
  import opened Text
  import opened Urls
  import opened StringOrder
  import opened Store
  import IgCounts

  /** extract_profile_name: the URL path without its leading slashes, with
      "?query" appended when there is a query. The name may contain '/'
      ("jane.doe/" for a URL ending in a slash): the store is keyed by the
      name all the same, as if the file could be opened. */
  function ExtractProfileName(profileUrl: string): (r: string)
    ensures r == [] || r[0] != '/'
    ensures '?' in r <==> UrlParse(profileUrl).query != ""
  {
    NameOf(UrlParse(profileUrl))
  }

  /** urlparse deletes a tab, carriage return or line feed inside the URL,
      so the store name does not see it. */
  lemma NameIgnoresUnsafe(a: string, c: char, b: string)
    requires IsUnsafe(c) && a != [] && !IsC0OrSpace(a[0])
    ensures ExtractProfileName(a + [c] + b) == ExtractProfileName(a + b)
  {
    UnsafeIgnored(a, c, b);
  }

  function NameOf(u: Url): (r: string)
    requires '?' !in u.path
    ensures r == [] || r[0] != '/'
    ensures '?' in r <==> u.query != ""
  {
    var path := LStrip(u.path, IsSlash);
    assert '?' !in path by {
      assert forall i :: 0 <= i < |path| ==> path[i] == u.path[|u.path| - |path| + i];
    }
    if u.query != "" then
      assert (path + "?" + u.query)[|path|] == '?';
      path + "?" + u.query
    else path
  }

  /** The first cell of every non-empty row, passed through cell, in row
      order, empty strings and repeats included. */
  function Cells(rows: seq<seq<string>>, cell: string -> string): seq<string>
  {
    if rows == [] then []
    else
      var last := rows[|rows| - 1];
      Cells(rows[..|rows| - 1], cell) + (if last != [] then [cell(last[0])] else [])
  }

  /** The cells load_profiles_from_csv collects: each first cell stripped. */
  function FirstCells(rows: seq<seq<string>>): seq<string>
  {
    Cells(rows, StripSpace)
  }

  predicate IsCellOf(row: seq<string>, cell: string -> string, x: string)
  {
    row != [] && cell(row[0]) == x
  }

  predicate IsFirstCellOf(rows: seq<seq<string>>, cell: string -> string, x: string)
  {
    exists j :: 0 <= j < |rows| && IsCellOf(rows[j], cell, x)
  }

  /** A collected cell is exactly the converted first cell of some non-empty row. */
  lemma {:induction false} CellsMembers(rows: seq<seq<string>>, cell: string -> string, x: string)
    ensures x in Cells(rows, cell) <==> IsFirstCellOf(rows, cell, x)
  {
    if rows != [] {
      var init := rows[..|rows| - 1];
      var last := rows[|rows| - 1];
      CellsMembers(init, cell, x);
      if IsFirstCellOf(init, cell, x) {
        var j :| 0 <= j < |init| && IsCellOf(init[j], cell, x);
        assert rows[j] == init[j];
      }
      if IsFirstCellOf(rows, cell, x) && !IsCellOf(last, cell, x) {
        var j :| 0 <= j < |rows| && IsCellOf(rows[j], cell, x);
        assert j < |init| && init[j] == rows[j];
      }
    }
  }

  /** So a profile load_profiles_from_csv returns is exactly the stripped
      first cell of some non-empty row. */
  lemma FirstCellsMembers(rows: seq<seq<string>>, x: string)
    ensures x in FirstCells(rows) <==> IsFirstCellOf(rows, StripSpace, x)
  {
    CellsMembers(rows, StripSpace, x);
  }

  /** load_profiles_from_csv on the rows the csv reader yields: sorted(), so
      a non-decreasing permutation of the collected cells. */
  method LoadProfilesFromCsv(rows: seq<seq<string>>) returns (profiles: seq<string>)
    ensures NonDecreasing(profiles)
    ensures multiset(profiles) == multiset(FirstCells(rows))
  {
    var urls: seq<string> := [];
    for i := 0 to |rows|
      invariant urls == FirstCells(rows[..i])
    {
      assert rows[..i + 1][..i] == rows[..i];
      if rows[i] != [] {
        urls := urls + [StripSpace(rows[i][0])];
      }
    }
    assert rows[..|rows|] == rows;
    profiles := Sorted(urls);
  }

  /** str.upper() on ASCII letters. */
  function UpperChar(c: char): char
  {
    if 'a' <= c <= 'z' then (c as int - 32) as char else c
  }

  function Upper(s: string): string
  {
    seq(|s|, i requires 0 <= i < |s| => UpperChar(s[i]))
  }

  /** An optional leading '+' or '-': (negative, the rest). */
  function SplitSign(t: string): (bool, string)
  {
    if t != [] && (t[0] == '+' || t[0] == '-') then (t[0] == '-', t[1..]) else (false, t)
  }

  /** Decimal digits with single underscores between them, as int() accepts. */
  predicate IsIntLiteral(b: string)
  {
    && b != [] && IsDigit(b[0]) && IsDigit(b[|b| - 1])
    && (forall i :: 0 <= i < |b| ==> IsDigit(b[i]) || b[i] == '_')
    && (forall i :: 0 <= i < |b| - 1 ==> !(b[i] == '_' && b[i + 1] == '_'))
  }

  /** int(s) on text; None stands for ValueError. */
  function PyInt(s: string): Option<int>
  {
    var (negative, body) := SplitSign(StripSpace(s));
    if IsIntLiteral(body) then
      var magnitude: int := DecimalValue(DigitsOf(body));
      Some(if negative then -magnitude else magnitude)
    else None
  }

  datatype Signed = Signed(negative: bool, magnitude: IgCounts.Decimal)

  /** float(s) for plain decimal literals with an optional sign; None stands
      for ValueError. */
  function PySignedDecimal(s: string): Option<Signed>
  {
    var (negative, body) := SplitSign(StripSpace(s));
    if body != [] && !IsSpace(body[0]) then
      match IgCounts.PyFloat(body)
      case Some(d) => Some(Signed(negative, d))
      case None => None
    else None
  }

  /** int(x * 1000): the product truncated toward zero. */
  function Thousands(v: Signed): int
  {
    var scaled: int := IgCounts.Scaled(v.magnitude, 1000);
    if v.negative then -scaled else scaled
  }

  /** parse_number_of_friends: the first space-separated token, stripped and
      upper-cased; a trailing K multiplies the float before it by 1000,
      anything else must be an int literal. */
  function ParseNumberOfFriends(text: string): (r: Result<int>)
    ensures r.Raises? ==> r.error == ValueError
  {
    ParseToken(Upper(StripSpace(Before(text, ' '))))
  }

  /** The stripped, upper-cased first token, parsed. */
  function ParseToken(s: string): (r: Result<int>)
    ensures r.Raises? ==> r.error == ValueError
  {
    if EndsWith(s, "K") then
      match PySignedDecimal(s[..|s| - 1])
      case Some(v) => Ok(Thousands(v))
      case None => Raises(ValueError)
    else
      match PyInt(s)
      case Some(n) => Ok(n)
      case None => Raises(ValueError)
  }

  /** Only the first space-separated token is read. */
  lemma FirstTokenOnly(first: string, rest: string)
    requires ' ' !in first
    ensures ParseNumberOfFriends(first + " " + rest) == ParseNumberOfFriends(first)
  {
    assert first + " " + rest == first + [' '] + rest;
    BeforeFirst(first, ' ', rest);
    BeforeAbsent(first, ' ');
  }

  lemma DigitsUnchanged(ds: string)
    requires ds != [] && AllDigits(ds)
    ensures ' ' !in ds && Before(ds, ' ') == ds && StripSpace(ds) == ds
  {
    assert forall i :: 0 <= i < |ds| ==> IsDigit(ds[i]);
    BeforeAbsent(ds, ' ');
    StripSpaceUnchanged(ds);
  }

  lemma DigitsLiteral(ds: string)
    requires ds != [] && AllDigits(ds)
    ensures Upper(ds) == ds && SplitSign(ds) == (false, ds) && IsIntLiteral(ds)
  {
    assert IsDigit(ds[0]);
  }

  /** A token of decimal digits is read as the integer it spells. */
  lemma PlainCount(ds: string)
    requires ds != [] && AllDigits(ds)
    ensures ParseNumberOfFriends(ds) == Ok(DecimalValue(ds))
  {
    DigitsUnchanged(ds);
    DigitsLiteral(ds);
    DigitsOfAllDigits(ds);
    assert !EndsWith(ds, "K") by {
      assert IsDigit(ds[|ds| - 1]);
    }
  }

  /** A leading minus sign is accepted: "-3" gives -3. */
  lemma NegativeCount(ds: string)
    requires ds != [] && AllDigits(ds)
    ensures ParseNumberOfFriends(['-'] + ds) == Ok(-(DecimalValue(ds) as int))
  {
    var t := ['-'] + ds;
    SignedUnchanged(t, ds);
    SignedLiteral(t, ds);
    NegativeInt(t, ds);
  }

  lemma SignedUnchanged(t: string, ds: string)
    requires ds != [] && AllDigits(ds) && t == ['-'] + ds
    ensures Upper(StripSpace(Before(t, ' '))) == t
  {
    assert forall i :: 1 <= i < |t| ==> t[i] == ds[i - 1];
    assert ' ' !in t;
    BeforeAbsent(t, ' ');
    assert IsDigit(ds[|ds| - 1]) && t[|t| - 1] == ds[|ds| - 1];
    StripSpaceUnchanged(t);
  }

  lemma SignedLiteral(t: string, ds: string)
    requires ds != [] && AllDigits(ds) && t == ['-'] + ds
    ensures !EndsWith(t, "K") && SplitSign(StripSpace(t)) == (true, ds)
  {
    LastNotK(t, ds);
    assert !IsSpace(t[0]) && !IsSpace(t[|t| - 1]) by {
      assert t[|t| - 1] == ds[|ds| - 1] && IsDigit(ds[|ds| - 1]);
    }
    StripSpaceUnchanged(t);
    assert t[1..] == ds;
  }

  lemma LastNotK(t: string, ds: string)
    requires ds != [] && AllDigits(ds) && t == ['-'] + ds
    ensures !EndsWith(t, "K")
  {
    var last := t[|t| - 1];
    assert last == ds[|ds| - 1] && IsDigit(last);
    assert t[|t| - 1..] == [last];
  }

  lemma NegativeInt(t: string, ds: string)
    requires ds != [] && AllDigits(ds)
    requires !EndsWith(t, "K") && SplitSign(StripSpace(t)) == (true, ds)
    ensures ParseToken(t) == Ok(-(DecimalValue(ds) as int))
  {
    DigitsLiteral(ds);
    DigitsOfAllDigits(ds);
  }

  /** Digits followed by K or k count thousands: "12K" gives 12000. */
  lemma ThousandsCount(ds: string, k: char)
    requires ds != [] && AllDigits(ds) && (k == 'K' || k == 'k')
    ensures ParseNumberOfFriends(ds + [k]) == Ok(DecimalValue(ds) * 1000)
  {
    var token := ds + [k];
    TokenUnchanged(ds, k);
    UpperToken(ds, k);
    var s := Upper(StripSpace(Before(token, ' ')));
    assert s == ds + ['K'];
    ParseThousands(ds);
    assert ParseToken(s) == Ok(DecimalValue(ds) * 1000);
  }

  lemma ParseThousands(ds: string)
    requires ds != [] && AllDigits(ds)
    ensures ParseToken(ds + ['K']) == Ok(DecimalValue(ds) * 1000)
  {
    var s := ds + ['K'];
    assert EndsWith(s, "K") && s[..|s| - 1] == ds;
    PySignedWhole(ds);
    var v := Signed(false, IgCounts.Decimal(DecimalValue(ds), 0));
    assert ParseToken(s) == Ok(Thousands(v));
    ThousandsWhole(DecimalValue(ds));
  }

  lemma ThousandsWhole(n: nat)
    ensures Thousands(Signed(false, IgCounts.Decimal(n, 0))) == n * 1000
  {
    IgCounts.ScaledWhole(n, 1000);
  }

  lemma TokenUnchanged(ds: string, k: char)
    requires ds != [] && AllDigits(ds) && (k == 'K' || k == 'k')
    ensures Before(ds + [k], ' ') == ds + [k] && StripSpace(ds + [k]) == ds + [k]
  {
    var token := ds + [k];
    assert forall i :: 0 <= i < |ds| ==> IsDigit(ds[i]);
    assert ' ' !in token;
    BeforeAbsent(token, ' ');
    StripSpaceUnchanged(token);
  }

  lemma UpperToken(ds: string, k: char)
    requires AllDigits(ds) && (k == 'K' || k == 'k')
    ensures Upper(ds + [k]) == ds + ['K']
  {
    assert forall i :: 0 <= i < |ds| ==> UpperChar(ds[i]) == ds[i];
  }

  lemma PySignedWhole(ds: string)
    requires ds != [] && AllDigits(ds)
    ensures PySignedDecimal(ds) == Some(Signed(false, IgCounts.Decimal(DecimalValue(ds), 0)))
  {
    DigitsUnchanged(ds);
    DigitsLiteral(ds);
    IgCounts.PyFloatWhole(ds);
  }

  /** A token holding a separator such as "1,234" raises ValueError. */
  lemma SeparatorRaises(text: string)
    requires ',' in Before(text, ' ')
    ensures ParseNumberOfFriends(text) == Raises(ValueError)
  {
    var s, i := CommaInToken(text);
    CommaTokenRaises(s, i);
  }

  /** The comma survives stripping and upper-casing. */
  lemma CommaInToken(text: string) returns (s: string, i: int)
    requires ',' in Before(text, ' ')
    ensures s == Upper(StripSpace(Before(text, ' '))) && 0 <= i < |s| && s[i] == ','
  {
    var t := StripSpace(Before(text, ' '));
    StripSpaceKeeps(Before(text, ' '), ',');
    s := Upper(t);
    i :| 0 <= i < |t| && t[i] == ',';
    assert s[i] == UpperChar(t[i]);
  }

  lemma CommaTokenRaises(s: string, i: int)
    requires 0 <= i < |s| && s[i] == ','
    ensures ParseToken(s) == Raises(ValueError)
  {
    if EndsWith(s, "K") {
      var head := s[..|s| - 1];
      assert head[i] == ',';
      NoNumberWithComma(head, i);
    } else {
      NoIntWithComma(s, i);
    }
  }

  lemma NoIntWithComma(s: string, i: int)
    requires 0 <= i < |s| && s[i] == ','
    ensures PyInt(s).None?
  {
    var body := CommaInBody(s, i);
    var j :| 0 <= j < |body| && body[j] == ',';
    assert !IsIntLiteral(body) by {
      assert !(IsDigit(body[j]) || body[j] == '_');
    }
  }

  lemma NoNumberWithComma(s: string, i: int)
    requires 0 <= i < |s| && s[i] == ','
    ensures PySignedDecimal(s).None?
  {
    var body := CommaInBody(s, i);
    IgCounts.PyFloatRejects(body, ',');
  }

  /** A comma survives stripping and the sign split. */
  lemma CommaInBody(s: string, i: int) returns (body: string)
    requires 0 <= i < |s| && s[i] == ','
    ensures body == SplitSign(StripSpace(s)).1 && ',' in body
  {
    StripSpaceKeeps(s, ',');
    body := SplitSign(StripSpace(s)).1;
    var t := StripSpace(s);
    var k :| 0 <= k < |t| && t[k] == ',';
    if t != [] && (t[0] == '+' || t[0] == '-') {
      assert body[k - 1] == ',';
    }
  }

  /** [item for item in friends if profile_url not in item['url']] */
  function ExcludeSelf(friends: seq<Following>, profileUrl: string): (r: seq<Following>)
    ensures forall f :: f in r <==> f in friends && !Contains(f.url, profileUrl)
  {
    if friends == [] then []
    else
      (if Contains(friends[0].url, profileUrl) then [] else [friends[0]]) + ExcludeSelf(friends[1..], profileUrl)
  }

  /** The filter keeps the original order: it distributes over concatenation. */
  lemma {:induction false} ExcludeSelfConcat(a: seq<Following>, b: seq<Following>, profileUrl: string)
    ensures ExcludeSelf(a + b, profileUrl) == ExcludeSelf(a, profileUrl) + ExcludeSelf(b, profileUrl)
  {
    if a == [] {
      assert a + b == b;
    } else {
      assert (a + b)[1..] == a[1..] + b;
      ExcludeSelfConcat(a[1..], b, profileUrl);
    }
  }

  /** In particular the visited profile itself is never kept. */
  lemma ExcludeSelfDropsProfile(friends: seq<Following>, profileUrl: string)
    ensures forall f :: f in ExcludeSelf(friends, profileUrl) ==> f.url != profileUrl
  {
    ContainsItself(profileUrl);
  }
}
