/** Identifier normalisation and naming in crawler_ig.py: the canonical key of
    a profile, the name of the store file it gets, its username, and the seed
    list read from the CSV file. */
module IgNames {
  import opened Text
  import opened Urls
  import opened StringOrder

  const BaseUrl: string := "https://www.instagram.com"

  predicate IsAt(c: char) { c == '@' }

  /** normalize_profile_url: a full URL is kept, anything else is read as a
      handle under BaseUrl; the query is cut off and a trailing '/' added. */
  function NormalizeProfileUrl(raw: string): (r: string)
    ensures r != "" ==> "http" <= r && EndsWith(r, "/") && '?' !in r
  {
    if raw == [] then ""
    else
      var s := StripSpace(raw);
      if s == [] then "" else WithTrailingSlash(CutQuery(AsUrl(s)))
  }

  /** A text that does not start with "http" is a handle, possibly written
      with a leading '@' or '/'. */
  function AsUrl(s: string): (url: string)
    ensures "http" <= url
  {
    if "http" <= s then s
    else
      var handle := LStrip(LStrip(s, IsAt), IsSlash);
      PrefixOfConcat("http", BaseUrl, "/" + handle);
      BaseUrl + ("/" + handle)
  }

  lemma PrefixOfConcat(p: string, a: string, b: string)
    requires p <= a
    ensures p <= a + b
  {
    assert (a + b)[..|p|] == a[..|p|];
  }

  /** url.split('?')[0]. */
  function CutQuery(url: string): (u: string)
    requires "http" <= url
    ensures "http" <= u && '?' !in u
  {
    var u := Before(url, '?');
    assert u[..4] == url[..4];
    u
  }

  function WithTrailingSlash(u: string): (r: string)
    requires "http" <= u && '?' !in u
    ensures "http" <= r && EndsWith(r, "/") && '?' !in r
  {
    if EndsWith(u, "/") then u
    else
      assert (u + "/")[..4] == u[..4];
      u + "/"
  }

  /** Blank or whitespace-only text, and only that, normalises to "". */
  lemma NormalizeBlank(raw: string)
    ensures NormalizeProfileUrl(raw) == "" <==> StripSpace(raw) == ""
  {
    if raw == [] {
      assert StripSpace(raw) == [];
    }
  }

  /** Normalising a canonical key gives the same key back. */
  lemma NormalizeIdempotent(raw: string)
    ensures NormalizeProfileUrl(NormalizeProfileUrl(raw)) == NormalizeProfileUrl(raw)
  {
    var r := NormalizeProfileUrl(raw);
    if r != "" {
      assert r[0] == 'h';
      StripSpaceUnchanged(r);
      BeforeAbsent(r, '?');
    }
  }

  predicate IsSafeChar(c: char)
  {
    IsAsciiLetter(c) || IsDigit(c) || c == '.' || c == '_' || c == '-'
  }

  /** re.sub(r"[^A-Za-z0-9._-]", "_", s). */
  function Sanitize(s: string): (r: string)
    ensures |r| == |s|
    ensures forall i :: 0 <= i < |s| ==> r[i] == if IsSafeChar(s[i]) then s[i] else '_'
  {
    if s == [] then [] else [if IsSafeChar(s[0]) then s[0] else '_'] + Sanitize(s[1..])
  }

  /** extract_profile_name: the store file name of a profile, the path without
      its slashes (else the host, else "profile"), then "_" and the query if
      there is one, with every unsafe character replaced by '_'. The
      source's final `or "profile"` never applies: the identifier is never
      empty. */
  function ExtractProfileName(profileUrl: string): (r: string)
    ensures r != ""
    ensures forall i :: 0 <= i < |r| ==> IsSafeChar(r[i])
  {
    var id := Identifier(UrlParse(profileUrl));
    assert id != "";
    Sanitize(id)
  }

  /** The unsanitised name: path without surrounding slashes, else the host,
      else "profile"; then "_" and the query if there is one. */
  function Identifier(u: Url): (id: string)
    ensures id != ""
  {
    var path := Strip(u.path, IsSlash);
    var identifier := if path != "" then path else if u.netloc != "" then u.netloc else "profile";
    if u.query != "" then identifier + "_" + u.query else identifier
  }

  /** extract_username: the first segment of the path. */
  function ExtractUsername(profileUrl: string): (r: string)
    ensures '/' !in r
    ensures r <= Strip(UrlParse(profileUrl).path, IsSlash)
    ensures r == "" <==> Strip(UrlParse(profileUrl).path, IsSlash) == ""
  {
    var path := Strip(UrlParse(profileUrl).path, IsSlash);
    if path != "" then Before(path, '/') else ""
  }

  /** urlparse deletes a tab, carriage return or line feed inside the URL,
      so neither the store name nor the username sees it. */
  lemma NamesIgnoreUnsafe(a: string, c: char, b: string)
    requires IsUnsafe(c) && a != [] && !IsC0OrSpace(a[0])
    ensures ExtractProfileName(a + [c] + b) == ExtractProfileName(a + b)
    ensures ExtractUsername(a + [c] + b) == ExtractUsername(a + b)
  {
    UnsafeIgnored(a, c, b);
  }

  /** The first cells that load_profiles_from_csv keeps, after applying
      normalize to them, in row order and before deduplication. */
  function SeedCells(rows: seq<seq<string>>, normalize: string -> string): (cells: seq<string>)
  {
    if rows == [] then []
    else
      var last := rows[|rows| - 1];
      var kept := if last != [] && normalize(last[0]) != "" then [normalize(last[0])] else [];
      SeedCells(rows[..|rows| - 1], normalize) + kept
  }

  /** A seed is exactly a non-empty normalised first cell of some row. */
  lemma {:induction false} SeedCellsMembers(rows: seq<seq<string>>, normalize: string -> string, x: string)
    ensures x in SeedCells(rows, normalize) <==> IsSeedOf(rows, normalize, x)
  {
    if rows != [] {
      var init := rows[..|rows| - 1];
      SeedCellsMembers(init, normalize, x);
      if IsSeedOf(init, normalize, x) {
        var j :| 0 <= j < |init| && IsSeedRow(init[j], normalize, x);
        assert IsSeedRow(rows[j], normalize, x);
      }
      if IsSeedOf(rows, normalize, x) && !IsSeedRow(rows[|rows| - 1], normalize, x) {
        var j :| 0 <= j < |rows| && IsSeedRow(rows[j], normalize, x);
        assert IsSeedRow(init[j], normalize, x);
      }
    }
  }

  lemma SeedCellsStep(rows: seq<seq<string>>, i: int, normalize: string -> string)
    requires 0 <= i < |rows|
    ensures SeedCells(rows[..i + 1], normalize) == SeedCells(rows[..i], normalize) +
      (if rows[i] != [] && normalize(rows[i][0]) != "" then [normalize(rows[i][0])] else [])
  {
    assert rows[..i + 1][..i] == rows[..i];
  }

  predicate IsSeedRow(row: seq<string>, normalize: string -> string, x: string)
  {
    row != [] && x != "" && normalize(row[0]) == x
  }

  predicate IsSeedOf(rows: seq<seq<string>>, normalize: string -> string, x: string)
  {
    exists j :: 0 <= j < |rows| && IsSeedRow(rows[j], normalize, x)
  }

  /** load_profiles_from_csv on the rows the csv reader yields: every
      non-empty normalised first cell, deduplicated and sorted. */
  method LoadProfilesFromCsv(rows: seq<seq<string>>) returns (profiles: seq<string>)
    ensures StrictlyIncreasing(profiles)
    ensures forall x :: x in profiles <==> IsSeedOf(rows, NormalizeProfileUrl, x)
  {
    var urls: seq<string> := [];
    for i := 0 to |rows|
      invariant urls == SeedCells(rows[..i], NormalizeProfileUrl)
    {
      SeedCellsStep(rows, i, NormalizeProfileUrl);
      if rows[i] == [] {
        continue;
      }
      var normalized := NormalizeProfileUrl(rows[i][0]);
      if normalized != "" {
        urls := urls + [normalized];
      }
    }
    assert rows[..|rows|] == rows;
    profiles := SortedDistinct(urls);
    forall x ensures x in profiles <==> IsSeedOf(rows, NormalizeProfileUrl, x) {
      SeedCellsMembers(rows, NormalizeProfileUrl, x);
    }
  }
}
