/** load_not_visited_profiles, in its two versions: which friends of a seed
    profile the crawler visits next, read from the seed's DuckDB file and
    ranked by the optional interactions table. */
module Frontier {
  import opened Outcome
  import opened Store
  import opened StringOrder

  /** A row of SELECT DISTINCT name, friend: (name, friend URL). */
  type Pair = (string, string)

  predicate Distinct<T(==)>(s: seq<T>)
  {
    forall i, j :: 0 <= i < j < |s| ==> s[i] != s[j]
  }

  /** The orders in which DuckDB may return SELECT DISTINCT name, friend for
      the pairs recorded for a profile: each of them once, in no fixed order. */
  ghost predicate IsDistinctOrder(order: seq<Pair>, recorded: seq<Pair>)
  {
    Distinct(order) && forall p :: p in order <==> p in recorded
  }

  /** dict(friends): the keys are the names, and a later pair overwrites an
      earlier one with the same name. */
  function Collapse(order: seq<Pair>): (m: map<string, string>)
    ensures forall n :: n in m ==> (n, m[n]) in order
    ensures forall p :: p in order ==> p.0 in m
  {
    if order == [] then map[]
    else
      var last := order[|order| - 1];
      var init := order[..|order| - 1];
      assert order == init + [last];
      Collapse(init)[last.0 := last.1]
  }

  /** The friend a name maps to is the one of the last pair carrying that name. */
  lemma {:induction false} CollapseLast(order: seq<Pair>, i: int)
    requires 0 <= i < |order|
    requires forall j :: i < j < |order| ==> order[j].0 != order[i].0
    ensures Collapse(order)[order[i].0] == order[i].1
  {
    if i < |order| - 1 {
      CollapseLast(order[..|order| - 1], i);
    }
  }

  /** {friend for friend in name_to_friend.values()}, listed once per pair. */
  function FinalFriends(order: seq<Pair>): (r: seq<string>)
    ensures forall x :: x in r <==> x in Collapse(order).Values
  {
    var m := Collapse(order);
    var r := seq(|order|, i requires 0 <= i < |order| => m[order[i].0]);
    assert forall x :: x in m.Values ==> x in r by {
      forall x | x in m.Values ensures x in r {
        var n :| n in m && m[n] == x;
        var i :| 0 <= i < |order| && order[i] == (n, x);
        assert r[i] == x;
      }
    }
    r
  }

  /** A cell of the n_interactions column: a number, or text that
      pd.to_numeric(errors='coerce') turns into NaN. */
  datatype Weight = Num(n: int) | NonNumeric

  datatype AuxRow = AuxRow(alter: string, interactions: Weight)

  /** The interactions table: whether it has the two columns the ranking
      reads, and its rows in file order. */
  datatype Aux = Aux(hasAlter: bool, hasInteractions: bool, rows: seq<AuxRow>)

  /** pd.to_numeric(..., errors='coerce').fillna(0). */
  function Coerce(w: Weight): int
  {
    match w
    case Num(n) => n
    case NonNumeric => 0
  }

  /** A row of the ranking: (alter, coerced n_interactions). */
  type Scored = (string, int)

  /** The table has a row for this alter with this coerced weight. */
  predicate HasWeight(rows: seq<AuxRow>, name: string, w: int)
  {
    exists i :: 0 <= i < |rows| && rows[i].alter == name && Coerce(rows[i].interactions) == w
  }

  /** A table with a first row: a weight is listed when the first row gives
      it or the rest of the table does. */
  lemma HasWeightCons(rows: seq<AuxRow>, name: string, w: int)
    requires rows != []
    ensures HasWeight(rows, name, w) <==>
      (rows[0].alter == name && Coerce(rows[0].interactions) == w) || HasWeight(rows[1..], name, w)
  {
    if HasWeight(rows, name, w) && !(rows[0].alter == name && Coerce(rows[0].interactions) == w) {
      var i :| 0 <= i < |rows| && rows[i].alter == name && Coerce(rows[i].interactions) == w;
      assert rows[1..][i - 1] == rows[i];
    }
    if HasWeight(rows[1..], name, w) {
      var i :| 0 <= i < |rows[1..]| && rows[1..][i].alter == name && Coerce(rows[1..][i].interactions) == w;
      assert rows[i + 1] == rows[1..][i];
    }
  }

  /** auxiliary_df[auxiliary_df['alter'].isin(names)], with the weights
      coerced: a (name, weight) row is kept exactly when the name is a key of
      the name map and the table lists it with that weight. */
  function Filtered(rows: seq<AuxRow>, names: map<string, string>): (f: seq<Scored>)
    ensures forall x :: x in f <==> x.0 in names && HasWeight(rows, x.0, x.1)
  {
    if rows == [] then []
    else
      var rest := Filtered(rows[1..], names);
      assert forall x: Scored :: HasWeight(rows, x.0, x.1) <==>
        x == (rows[0].alter, Coerce(rows[0].interactions)) || HasWeight(rows[1..], x.0, x.1) by {
        forall x: Scored ensures HasWeight(rows, x.0, x.1) <==>
          x == (rows[0].alter, Coerce(rows[0].interactions)) || HasWeight(rows[1..], x.0, x.1) {
          HasWeightCons(rows, x.0, x.1);
        }
      }
      if rows[0].alter in names then [(rows[0].alter, Coerce(rows[0].interactions))] + rest else rest
  }

  /** The filter keeps table order: filtering two stretches of the table
      one after the other gives the filtered rows of both, in order. */
  lemma {:induction false} FilteredConcat(a: seq<AuxRow>, b: seq<AuxRow>, names: map<string, string>)
    ensures Filtered(a + b, names) == Filtered(a, names) + Filtered(b, names)
  {
    if a == [] {
      assert a + b == b;
    } else {
      assert (a + b)[1..] == a[1..] + b;
      FilteredConcat(a[1..], b, names);
    }
  }

  predicate NonIncreasing(s: seq<Scored>)
  {
    forall i, j :: 0 <= i < j < |s| ==> s[i].1 >= s[j].1
  }

  /** The orders sort_values(by='n_interactions', ascending=False) may
      produce: the same rows, heaviest first, ties in any order. */
  predicate IsRanking(ranked: seq<Scored>, rows: seq<Scored>)
  {
    multiset(ranked) == multiset(rows) && NonIncreasing(ranked)
  }

  const TopN := 50

  /** .head(50) */
  function Head(s: seq<Scored>): seq<Scored>
  {
    if |s| <= TopN then s else s[..TopN]
  }

  /** [name_to_friend[name] for name in top_50['alter'] if name in
      name_to_friend], each friend with the weight its name was ranked by. */
  function Candidates(top: seq<Scored>, m: map<string, string>): (c: seq<Scored>)
    ensures |c| <= |top|
  {
    if top == [] then []
    else (if top[0].0 in m then [(m[top[0].0], top[0].1)] else []) + Candidates(top[1..], m)
  }

  /** [friend for friend in top_friends if friend not in visited_set]: an
      entry is kept exactly when its friend was not visited. */
  function NotVisited(c: seq<Scored>, visited: set<string>): (r: seq<Scored>)
    ensures |r| <= |c|
    ensures forall x :: x in r <==> x in c && x.0 !in visited
  {
    if c == [] then []
    else
      assert c == [c[0]] + c[1..];
      (if c[0].0 !in visited then [c[0]] else []) + NotVisited(c[1..], visited)
  }

  /** The visited filter keeps the order of the entries it keeps. */
  lemma {:induction false} NotVisitedConcat(a: seq<Scored>, b: seq<Scored>, visited: set<string>)
    ensures NotVisited(a + b, visited) == NotVisited(a, visited) + NotVisited(b, visited)
  {
    if a == [] {
      assert a + b == b;
    } else {
      assert (a + b)[1..] == a[1..] + b;
      NotVisitedConcat(a[1..], b, visited);
    }
  }

  function FriendsOf(c: seq<Scored>): (r: seq<string>)
    ensures |r| == |c|
    ensures forall i :: 0 <= i < |r| ==> r[i] == c[i].0
  {
    if c == [] then [] else [c[0].0] + FriendsOf(c[1..])
  }

  function WeightsOf(c: seq<Scored>): (r: seq<int>)
    ensures |r| == |c|
    ensures forall i :: 0 <= i < |r| ==> r[i] == c[i].1
  {
    if c == [] then [] else [c[0].1] + WeightsOf(c[1..])
  }

  /** The friends the ranked path keeps, each with its name's weight. */
  function Shortlist(t: Tables, m: map<string, string>, ranked: seq<Scored>): seq<Scored>
  {
    NotVisited(Candidates(Head(ranked), m), Visited(t))
  }

  /** The ranked path, from the ranking pandas produced to the returned list. */
  function RankedFrontier(t: Tables, m: map<string, string>, ranked: seq<Scored>): seq<string>
  {
    FriendsOf(Shortlist(t, m, ranked))
  }

  /** A top row's name is mapped to a friend. */
  ghost predicate NamesFriend(top: seq<Scored>, m: map<string, string>, x: Scored)
  {
    exists n :: n in m && m[n] == x.0 && (n, x.1) in top
  }

  /** A candidate is exactly what the name map gives for the name of one of
      the top rows, with that row's weight: rows whose name has no friend
      give nothing, every other row gives its friend. */
  lemma {:induction false} CandidatesMembers(top: seq<Scored>, m: map<string, string>)
    ensures forall x :: x in Candidates(top, m) <==> NamesFriend(top, m, x)
  {
    if top != [] {
      CandidatesMembers(top[1..], m);
      var head := if top[0].0 in m then [(m[top[0].0], top[0].1)] else [];
      assert Candidates(top, m) == head + Candidates(top[1..], m);
      forall x ensures x in Candidates(top, m) <==> NamesFriend(top, m, x) {
        if x in head {
          assert (top[0].0, x.1) == top[0];
        } else if NamesFriend(top, m, x) {
          var n :| n in m && m[n] == x.0 && (n, x.1) in top;
          if (n, x.1) != top[0] {
            assert (n, x.1) in top[1..];
          }
        }
        if NamesFriend(top[1..], m, x) {
          var n :| n in m && m[n] == x.0 && (n, x.1) in top[1..];
          assert (n, x.1) in top;
        }
      }
    }
  }

  /** The name map gives friend for some name the weight table lists with weight w. */
  ghost predicate Justified(m: map<string, string>, rows: seq<AuxRow>, friend: string, w: int)
  {
    exists n :: n in m && m[n] == friend && HasWeight(rows, n, w)
  }

  predicate AtMost(s: seq<Scored>, bound: int)
  {
    forall x :: x in s ==> x.1 <= bound
  }

  lemma NonIncreasingCons(x: Scored, s: seq<Scored>)
    requires NonIncreasing(s) && AtMost(s, x.1)
    ensures NonIncreasing([x] + s)
  {
    var r := [x] + s;
    forall i, j | 0 <= i < j < |r| ensures r[i].1 >= r[j].1 {
      assert r[j] == s[j - 1];
      if i > 0 { assert r[i] == s[i - 1]; } else { assert s[j - 1] in s; }
    }
  }

  lemma NonIncreasingTail(s: seq<Scored>)
    requires NonIncreasing(s) && s != []
    ensures NonIncreasing(s[1..]) && AtMost(s[1..], s[0].1)
  {
    forall x | x in s[1..] ensures x.1 <= s[0].1 {
      var k :| 0 <= k < |s[1..]| && s[1..][k] == x;
      assert s[k + 1] == x;
    }
  }

  lemma {:induction false} CandidatesAtMost(top: seq<Scored>, m: map<string, string>, bound: int)
    requires AtMost(top, bound)
    ensures AtMost(Candidates(top, m), bound)
  {
    if top != [] {
      assert AtMost(top[1..], bound) by {
        forall x | x in top[1..] ensures x.1 <= bound { assert x in top; }
      }
      CandidatesAtMost(top[1..], m, bound);
      assert top[0] in top;
    }
  }

  lemma {:induction false} CandidatesNonIncreasing(top: seq<Scored>, m: map<string, string>)
    requires NonIncreasing(top)
    ensures NonIncreasing(Candidates(top, m))
  {
    if top != [] {
      var rest := Candidates(top[1..], m);
      NonIncreasingTail(top);
      CandidatesNonIncreasing(top[1..], m);
      CandidatesAtMost(top[1..], m, top[0].1);
      if top[0].0 in m {
        NonIncreasingCons((m[top[0].0], top[0].1), rest);
      } else {
        assert Candidates(top, m) == rest;
      }
    }
  }

  lemma {:induction false} NotVisitedNonIncreasing(c: seq<Scored>, visited: set<string>)
    requires NonIncreasing(c)
    ensures NonIncreasing(NotVisited(c, visited))
  {
    if c != [] {
      var rest := NotVisited(c[1..], visited);
      NonIncreasingTail(c);
      NotVisitedNonIncreasing(c[1..], visited);
      if c[0].0 !in visited {
        NonIncreasingCons(c[0], rest);
      } else {
        assert NotVisited(c, visited) == rest;
      }
    }
  }

  lemma HeadOfRanking(ranked: seq<Scored>, f: seq<Scored>)
    requires IsRanking(ranked, f)
    ensures NonIncreasing(Head(ranked))
    ensures forall x :: x in Head(ranked) ==> x in f
  {
    forall x | x in Head(ranked) ensures x in f {
      assert x in ranked;
      assert x in multiset(ranked);
    }
  }

  /** Each kept friend is what the name map gives for a name the weight
      table lists, with that name's weight, and was not visited yet. */
  lemma ShortlistSource(t: Tables, m: map<string, string>, rows: seq<AuxRow>, ranked: seq<Scored>, x: Scored)
    requires IsRanking(ranked, Filtered(rows, m))
    requires x in Shortlist(t, m, ranked)
    ensures x.0 !in Visited(t)
    ensures Justified(m, rows, x.0, x.1)
  {
    HeadOfRanking(ranked, Filtered(rows, m));
    CandidatesMembers(Head(ranked), m);
    assert NamesFriend(Head(ranked), m, x);
    var n :| n in m && m[n] == x.0 && (n, x.1) in Head(ranked);
    assert (n, x.1) in Filtered(rows, m);
  }

  lemma ShortlistNonIncreasing(t: Tables, m: map<string, string>, rows: seq<AuxRow>, ranked: seq<Scored>)
    requires IsRanking(ranked, Filtered(rows, m))
    ensures NonIncreasing(Shortlist(t, m, ranked))
    ensures |Shortlist(t, m, ranked)| <= TopN
  {
    HeadOfRanking(ranked, Filtered(rows, m));
    CandidatesNonIncreasing(Head(ranked), m);
    NotVisitedNonIncreasing(Candidates(Head(ranked), m), Visited(t));
  }

  lemma ShortlistFacts(t: Tables, m: map<string, string>, rows: seq<AuxRow>, ranked: seq<Scored>)
    requires IsRanking(ranked, Filtered(rows, m))
    ensures var v := Shortlist(t, m, ranked);
      forall i :: 0 <= i < |v| ==> v[i].0 !in Visited(t) && Justified(m, rows, v[i].0, v[i].1)
  {
    var v := Shortlist(t, m, ranked);
    forall i | 0 <= i < |v| ensures v[i].0 !in Visited(t) && Justified(m, rows, v[i].0, v[i].1) {
      assert v[i] in v;
      ShortlistSource(t, m, rows, ranked, v[i]);
    }
  }

  /** load_not_visited_profiles of crawler_ig.py, for one admissible choice of
      the two unspecified orders (order: the rows SELECT DISTINCT returned;
      ranked: the rows sort_values returned). Only a missing table raises. */
  function SelectIg(t: Tables, aux: Option<Aux>, order: seq<Pair>, ranked: seq<Scored>): (r: Result<seq<string>>)
    ensures r.Raises? <==> !t.exist
    ensures r.Raises? ==> r.error == MissingTable
  {
    if !t.exist then Raises(MissingTable)
    else
      var m := Collapse(order);
      if m == map[] then Ok([])
      else if aux.None? || !aux.value.hasAlter || !aux.value.hasInteractions then Ok(SortedDistinct(FinalFriends(order)))
      else Ok(RankedFrontier(t, m, ranked))
  }

  /** load_not_visited_profiles of crawler.py: no early return and no
      fallback; a weight table without either column raises KeyError. */
  function SelectFb(t: Tables, aux: Aux, order: seq<Pair>, ranked: seq<Scored>): (r: Result<seq<string>>)
    ensures r.Raises? <==> !t.exist || !aux.hasAlter || !aux.hasInteractions
    ensures r.Raises? && t.exist ==> r.error == MissingColumn
  {
    if !t.exist then Raises(MissingTable)
    else if !aux.hasAlter || !aux.hasInteractions then Raises(MissingColumn)
    else Ok(RankedFrontier(t, Collapse(order), ranked))
  }

  /** The rows of the weight table a run passes (none when there is no table). */
  function AuxRows(aux: Option<Aux>): seq<AuxRow>
  {
    if aux.Some? then aux.value.rows else []
  }

  /** The orders a call for this profile may observe. */
  ghost predicate Admissible(t: Tables, profile: string, rows: seq<AuxRow>, order: seq<Pair>, ranked: seq<Scored>)
  {
    IsDistinctOrder(order, Recorded(t.friendships, profile)) && IsRanking(ranked, Filtered(rows, Collapse(order)))
  }

  /** A profile with no recorded edges gets an empty frontier from the
      Instagram selector, whatever the weight table. */
  lemma NoEdgesIg(t: Tables, profile: string, aux: Option<Aux>, order: seq<Pair>, ranked: seq<Scored>)
    requires t.exist && Recorded(t.friendships, profile) == []
    requires Admissible(t, profile, AuxRows(aux), order, ranked)
    ensures SelectIg(t, aux, order, ranked) == Ok([])
  {
  }

  /** Without a usable weight table the Instagram selector returns every
      friend the name map keeps, sorted and once each, and only recorded
      friends: profiles already visited are not removed. */
  lemma FallbackIg(t: Tables, profile: string, aux: Option<Aux>, order: seq<Pair>, ranked: seq<Scored>)
    requires t.exist && Recorded(t.friendships, profile) != []
    requires aux.None? || !aux.value.hasAlter || !aux.value.hasInteractions
    requires Admissible(t, profile, AuxRows(aux), order, ranked)
    ensures var r := SelectIg(t, aux, order, ranked);
      && r.Ok?
      && StrictlyIncreasing(r.value)
      && (forall x :: x in r.value <==> x in Collapse(order).Values)
      && (forall x :: x in r.value ==> exists n :: Friendship(profile, x, n) in t.friendships)
  {
    var recorded := Recorded(t.friendships, profile);
    assert recorded[0] in order;
    var m := Collapse(order);
    assert recorded[0].0 in m;
    forall x | x in m.Values ensures exists n :: Friendship(profile, x, n) in t.friendships {
      var n :| n in m && m[n] == x;
      assert (n, x) in recorded;
    }
  }

  /** The fallback does not drop a profile that already has a profile_doms
      row: here the only friend was visited and is still returned. */
  lemma FallbackKeepsVisited()
    ensures var t := Tables(true, [Friendship("s", "f", "F")], [ProfileDom("f", 0, "")]);
      && "f" in Visited(t)
      && Admissible(t, "s", [], [("F", "f")], [])
      && SelectIg(t, None, [("F", "f")], []) == Ok(["f"])
  {
    var t := Tables(true, [Friendship("s", "f", "F")], [ProfileDom("f", 0, "")]);
    var order: seq<Pair> := [("F", "f")];
    assert t.profileDoms[0] in t.profileDoms;
    assert Recorded(t.friendships, "s") == order by {
      assert t.friendships[..0] == [];
    }
    assert Collapse(order) == map["F" := "f"] by {
      assert order[..0] == [];
    }
    var friends := FinalFriends(order);
    assert friends == ["f"] by {
      assert |friends| == 1 && friends[0] == Collapse(order)["F"];
    }
    assert SortedDistinct(friends) == ["f"] by {
      assert friends[..0] == [];
    }
  }

  /** There is a row of the profile's edges naming this friend, under a name
      the weight table lists with weight w. */
  ghost predicate Grounded(t: Tables, profile: string, rows: seq<AuxRow>, friend: string, w: int)
  {
    exists n :: Friendship(profile, friend, n) in t.friendships && HasWeight(rows, n, w)
  }

  /** What both selectors promise on their ranked path: at most 50 entries,
      none with a profile_doms row, and weights ws, one per entry and
      non-increasing, each the weight of a name under which that entry is
      recorded as a friend of the profile. */
  ghost predicate RankedShape(t: Tables, profile: string, rows: seq<AuxRow>, r: seq<string>)
  {
    && |r| <= TopN
    && (forall x :: x in r ==> x !in Visited(t))
    && exists ws: seq<int> :: WeighedBy(t, profile, rows, r, ws)
  }

  /** ws gives each entry of r a weight that grounds it, in non-increasing
      order. */
  ghost predicate WeighedBy(t: Tables, profile: string, rows: seq<AuxRow>, r: seq<string>, ws: seq<int>)
  {
    && |ws| == |r|
    && (forall i, j :: 0 <= i < j < |ws| ==> ws[i] >= ws[j])
    && (forall i :: 0 <= i < |ws| ==> Grounded(t, profile, rows, r[i], ws[i]))
  }

  lemma JustifiedIsGrounded(t: Tables, profile: string, rows: seq<AuxRow>, order: seq<Pair>, friend: string, w: int)
    requires IsDistinctOrder(order, Recorded(t.friendships, profile))
    requires Justified(Collapse(order), rows, friend, w)
    ensures Grounded(t, profile, rows, friend, w)
  {
    var m := Collapse(order);
    var n :| n in m && m[n] == friend && HasWeight(rows, n, w);
    assert (n, friend) in order;
    assert Friendship(profile, friend, n) in t.friendships;
  }

  lemma RankedGrounded(t: Tables, profile: string, rows: seq<AuxRow>, order: seq<Pair>, ranked: seq<Scored>)
    requires Admissible(t, profile, rows, order, ranked)
    ensures RankedShape(t, profile, rows, RankedFrontier(t, Collapse(order), ranked))
  {
    var m := Collapse(order);
    ShortlistNonIncreasing(t, m, rows, ranked);
    ShortlistGrounded(t, profile, rows, order, ranked);
    var v := Shortlist(t, m, ranked);
    assert RankedFrontier(t, m, ranked) == FriendsOf(v);
    ShapeOf(t, profile, rows, v);
  }

  /** Every kept friend is unvisited and grounded in the profile's edges. */
  ghost predicate AllGrounded(t: Tables, profile: string, rows: seq<AuxRow>, v: seq<Scored>)
  {
    forall i :: 0 <= i < |v| ==> v[i].0 !in Visited(t) && Grounded(t, profile, rows, v[i].0, v[i].1)
  }

  lemma ShortlistGrounded(t: Tables, profile: string, rows: seq<AuxRow>, order: seq<Pair>, ranked: seq<Scored>)
    requires Admissible(t, profile, rows, order, ranked)
    ensures AllGrounded(t, profile, rows, Shortlist(t, Collapse(order), ranked))
  {
    var v := Shortlist(t, Collapse(order), ranked);
    ShortlistFacts(t, Collapse(order), rows, ranked);
    forall i | 0 <= i < |v| ensures Grounded(t, profile, rows, v[i].0, v[i].1) {
      JustifiedIsGrounded(t, profile, rows, order, v[i].0, v[i].1);
    }
  }

  lemma ShapeOf(t: Tables, profile: string, rows: seq<AuxRow>, v: seq<Scored>)
    requires NonIncreasing(v) && |v| <= TopN
    requires AllGrounded(t, profile, rows, v)
    ensures RankedShape(t, profile, rows, FriendsOf(v))
  {
    FriendsUnvisited(t, v);
    FriendsWeighed(t, profile, rows, v);
  }

  lemma FriendsUnvisited(t: Tables, v: seq<Scored>)
    requires forall i :: 0 <= i < |v| ==> v[i].0 !in Visited(t)
    ensures forall x :: x in FriendsOf(v) ==> x !in Visited(t)
  {
    var r := FriendsOf(v);
    forall x | x in r ensures x !in Visited(t) {
      var i :| 0 <= i < |r| && r[i] == x;
      assert v[i].0 == x;
    }
  }

  lemma FriendsWeighed(t: Tables, profile: string, rows: seq<AuxRow>, v: seq<Scored>)
    requires NonIncreasing(v)
    requires forall i :: 0 <= i < |v| ==> Grounded(t, profile, rows, v[i].0, v[i].1)
    ensures WeighedBy(t, profile, rows, FriendsOf(v), WeightsOf(v))
  {
    var r := FriendsOf(v);
    var ws := WeightsOf(v);
    forall i | 0 <= i < |ws| ensures Grounded(t, profile, rows, r[i], ws[i]) {
      assert r[i] == v[i].0 && ws[i] == v[i].1;
    }
    forall i, j | 0 <= i < j < |ws| ensures ws[i] >= ws[j] {
      assert ws[i] == v[i].1 && ws[j] == v[j].1;
    }
  }

  /** A friend is listed exactly when some entry names it. */
  lemma FriendsMembers(v: seq<Scored>)
    ensures forall x :: x in FriendsOf(v) <==> exists w :: (x, w) in v
  {
    var r := FriendsOf(v);
    forall x ensures x in r <==> exists w :: (x, w) in v {
      if x in r {
        var i :| 0 <= i < |r| && r[i] == x;
        assert (x, v[i].1) == v[i];
      }
      if exists w :: (x, w) in v {
        var w :| (x, w) in v;
        var i :| 0 <= i < |v| && v[i] == (x, w);
        assert r[i] == x;
      }
    }
  }

  /** The friend the name map gives for one of the 50 heaviest names. */
  ghost predicate TopNamed(m: map<string, string>, ranked: seq<Scored>, friend: string)
  {
    exists w :: NamesFriend(Head(ranked), m, (friend, w))
  }

  /** r lists exactly the friends of the 50 heaviest names that have no
      profile_doms row. */
  ghost predicate ListsTop(t: Tables, m: map<string, string>, ranked: seq<Scored>, r: seq<string>)
  {
    forall x :: x in r <==> x !in Visited(t) && TopNamed(m, ranked, x)
  }

  /** r lists exactly the friends the name map gives for a name the weight
      table lists, less those with a profile_doms row. */
  ghost predicate ListsWeighted(t: Tables, m: map<string, string>, rows: seq<AuxRow>, r: seq<string>)
  {
    forall x :: x in r <==> x !in Visited(t) && exists w :: Justified(m, rows, x, w)
  }

  /** The ranked path returns exactly the unvisited friends of the 50
      heaviest names. */
  lemma RankedMembers(t: Tables, m: map<string, string>, ranked: seq<Scored>)
    ensures ListsTop(t, m, ranked, RankedFrontier(t, m, ranked))
  {
    var c := Candidates(Head(ranked), m);
    var v := NotVisited(c, Visited(t));
    CandidatesMembers(Head(ranked), m);
    FriendsMembers(v);
    forall x ensures x in FriendsOf(v) <==> x !in Visited(t) && TopNamed(m, ranked, x) {
      if x in FriendsOf(v) {
        var w :| (x, w) in v;
        assert NamesFriend(Head(ranked), m, (x, w));
      }
      if x !in Visited(t) && TopNamed(m, ranked, x) {
        var w :| NamesFriend(Head(ranked), m, (x, w));
        assert (x, w) in v;
      }
    }
  }

  /** When at most 50 weight rows match a name of the map nothing is cut, and
      the ranked path returns every unvisited friend of a weighted name,
      whatever order the ranking chose. */
  lemma RankedComplete(t: Tables, profile: string, rows: seq<AuxRow>, order: seq<Pair>, ranked: seq<Scored>)
    requires Admissible(t, profile, rows, order, ranked)
    requires |Filtered(rows, Collapse(order))| <= TopN
    ensures ListsWeighted(t, Collapse(order), rows, RankedFrontier(t, Collapse(order), ranked))
  {
    var m := Collapse(order);
    var f := Filtered(rows, m);
    RankedMembers(t, m, ranked);
    WholeRanking(ranked, f);
    forall x ensures TopNamed(m, ranked, x) <==> exists w :: Justified(m, rows, x, w) {
      NamedIffJustified(m, rows, ranked, f, x);
    }
  }

  /** With the ranking kept whole, a friend is named by it exactly when some
      weight row of a name mapping to that friend exists. */
  lemma NamedIffJustified(m: map<string, string>, rows: seq<AuxRow>, ranked: seq<Scored>, f: seq<Scored>, x: string)
    requires Head(ranked) == ranked
    requires forall y :: y in ranked <==> y in f
    requires forall y :: y in f <==> y.0 in m && HasWeight(rows, y.0, y.1)
    ensures TopNamed(m, ranked, x) <==> exists w :: Justified(m, rows, x, w)
  {
    if TopNamed(m, ranked, x) {
      var w :| NamesFriend(ranked, m, (x, w));
      var n :| n in m && m[n] == x && (n, w) in ranked;
      assert (n, w) in f;
      assert Justified(m, rows, x, w);
    }
    if exists w :: Justified(m, rows, x, w) {
      var w :| Justified(m, rows, x, w);
      var n :| n in m && m[n] == x && HasWeight(rows, n, w);
      assert (n, w) in f;
      assert NamesFriend(ranked, m, (x, w));
    }
  }

  /** A ranking of at most 50 rows is kept whole, and holds exactly the rows
      it ranks. */
  lemma WholeRanking(ranked: seq<Scored>, f: seq<Scored>)
    requires IsRanking(ranked, f) && |f| <= TopN
    ensures Head(ranked) == ranked
    ensures forall x :: x in ranked <==> x in f
  {
    assert |ranked| == |f| by {
      assert |multiset(ranked)| == |multiset(f)|;
    }
    forall x ensures x in ranked <==> x in f {
      assert x in ranked <==> x in multiset(ranked);
      assert x in f <==> x in multiset(f);
    }
  }

  /** The Instagram selector's ranked path, for every order DuckDB and pandas
      may choose, has that shape. */
  lemma RankedIg(t: Tables, profile: string, aux: Aux, order: seq<Pair>, ranked: seq<Scored>)
    requires t.exist && aux.hasAlter && aux.hasInteractions
    requires Admissible(t, profile, aux.rows, order, ranked)
    ensures SelectIg(t, Some(aux), order, ranked).Ok?
    ensures RankedShape(t, profile, aux.rows, SelectIg(t, Some(aux), order, ranked).value)
    ensures ListsTop(t, Collapse(order), ranked, SelectIg(t, Some(aux), order, ranked).value)
    ensures |Filtered(aux.rows, Collapse(order))| <= TopN ==>
      ListsWeighted(t, Collapse(order), aux.rows, SelectIg(t, Some(aux), order, ranked).value)
  {
    if Collapse(order) == map[] {
      var none: seq<int> := [];
      assert WeighedBy(t, profile, aux.rows, [], none);
    } else {
      RankedGrounded(t, profile, aux.rows, order, ranked);
      RankedMembers(t, Collapse(order), ranked);
      if |Filtered(aux.rows, Collapse(order))| <= TopN {
        RankedComplete(t, profile, aux.rows, order, ranked);
      }
    }
  }

  /** The same shape for crawler.py's selector, which never raises once the
      tables and both columns exist. */
  lemma RankedFb(t: Tables, profile: string, aux: Aux, order: seq<Pair>, ranked: seq<Scored>)
    requires t.exist && aux.hasAlter && aux.hasInteractions
    requires Admissible(t, profile, aux.rows, order, ranked)
    ensures SelectFb(t, aux, order, ranked).Ok?
    ensures RankedShape(t, profile, aux.rows, SelectFb(t, aux, order, ranked).value)
    ensures ListsTop(t, Collapse(order), ranked, SelectFb(t, aux, order, ranked).value)
    ensures |Filtered(aux.rows, Collapse(order))| <= TopN ==>
      ListsWeighted(t, Collapse(order), aux.rows, SelectFb(t, aux, order, ranked).value)
  {
    RankedGrounded(t, profile, aux.rows, order, ranked);
    RankedMembers(t, Collapse(order), ranked);
    if |Filtered(aux.rows, Collapse(order))| <= TopN {
      RankedComplete(t, profile, aux.rows, order, ranked);
    }
  }

  lemma {:induction false} FilteredNone(rows: seq<AuxRow>, m: map<string, string>)
    requires forall i :: 0 <= i < |rows| ==> rows[i].alter !in m
    ensures Filtered(rows, m) == []
  {
    if rows != [] {
      FilteredNone(rows[1..], m);
    }
  }

  /** When no recorded name appears in the weight table the ranked path
      returns an empty list; neither version falls back to the unranked
      friends. */
  lemma NoOverlap(t: Tables, profile: string, aux: Aux, order: seq<Pair>, ranked: seq<Scored>)
    requires t.exist && aux.hasAlter && aux.hasInteractions
    requires Admissible(t, profile, aux.rows, order, ranked)
    requires forall p, i :: p in Recorded(t.friendships, profile) && 0 <= i < |aux.rows| ==> aux.rows[i].alter != p.0
    ensures SelectIg(t, Some(aux), order, ranked) == Ok([])
    ensures SelectFb(t, aux, order, ranked) == Ok([])
  {
    var m := Collapse(order);
    assert forall i :: 0 <= i < |aux.rows| ==> aux.rows[i].alter !in m;
    FilteredNone(aux.rows, m);
    assert |ranked| == 0 by {
      assert |multiset(ranked)| == 0;
    }
  }

  /** crawler.py's selector raises KeyError when the weight table lacks the
      alter or the n_interactions column, edges or not. */
  lemma MissingColumnFb(t: Tables, aux: Aux, order: seq<Pair>, ranked: seq<Scored>)
    requires t.exist && (!aux.hasAlter || !aux.hasInteractions)
    ensures SelectFb(t, aux, order, ranked) == Raises(MissingColumn)
  {
  }

  /** Duplicate alter rows put the same URL in the frontier twice. */
  lemma DuplicateAlter(t: Tables, aux: Aux, order: seq<Pair>, ranked: seq<Scored>)
    requires t == Tables(true, [Friendship("s", "f", "F")], [ProfileDom("s", 1, "")])
    requires aux == Aux(true, true, [AuxRow("F", Num(3)), AuxRow("F", Num(3))])
    requires order == [("F", "f")] && ranked == [("F", 3), ("F", 3)]
    ensures Admissible(t, "s", aux.rows, order, ranked)
    ensures SelectIg(t, Some(aux), order, ranked) == Ok(["f", "f"])
    ensures SelectFb(t, aux, order, ranked) == Ok(["f", "f"])
  {
    DuplicateAlterAdmissible(t, aux, order, ranked);
    DuplicateAlterSelected(t, aux, order, ranked);
  }

  lemma DuplicateAlterAdmissible(t: Tables, aux: Aux, order: seq<Pair>, ranked: seq<Scored>)
    requires t == Tables(true, [Friendship("s", "f", "F")], [ProfileDom("s", 1, "")])
    requires aux == Aux(true, true, [AuxRow("F", Num(3)), AuxRow("F", Num(3))])
    requires order == [("F", "f")] && ranked == [("F", 3), ("F", 3)]
    ensures Admissible(t, "s", aux.rows, order, ranked)
  {
    DuplicateAlterInputs(t, aux, order, ranked);
    assert NonIncreasing(ranked);
    ExactInputsAdmissible(t, "s", aux.rows, order, ranked);
  }

  /** An order that is the recorded pairs themselves, already distinct, and
      a ranking that is the weighted rows themselves, already sorted, are
      admissible. */
  lemma ExactInputsAdmissible(t: Tables, profile: string, rows: seq<AuxRow>, order: seq<Pair>, ranked: seq<Scored>)
    requires Recorded(t.friendships, profile) == order && Distinct(order)
    requires Filtered(rows, Collapse(order)) == ranked && NonIncreasing(ranked)
    ensures Admissible(t, profile, rows, order, ranked)
  {
  }

  lemma DuplicateAlterSelected(t: Tables, aux: Aux, order: seq<Pair>, ranked: seq<Scored>)
    requires t == Tables(true, [Friendship("s", "f", "F")], [ProfileDom("s", 1, "")])
    requires aux == Aux(true, true, [AuxRow("F", Num(3)), AuxRow("F", Num(3))])
    requires order == [("F", "f")] && ranked == [("F", 3), ("F", 3)]
    ensures SelectIg(t, Some(aux), order, ranked) == Ok(["f", "f"])
    ensures SelectFb(t, aux, order, ranked) == Ok(["f", "f"])
  {
    DuplicateAlterInputs(t, aux, order, ranked);
    DuplicateAlterFrontier(t, Collapse(order), ranked);
  }

  lemma DuplicateAlterInputs(t: Tables, aux: Aux, order: seq<Pair>, ranked: seq<Scored>)
    requires t == Tables(true, [Friendship("s", "f", "F")], [ProfileDom("s", 1, "")])
    requires aux == Aux(true, true, [AuxRow("F", Num(3)), AuxRow("F", Num(3))])
    requires order == [("F", "f")] && ranked == [("F", 3), ("F", 3)]
    ensures Recorded(t.friendships, "s") == order
    ensures Collapse(order) == map["F" := "f"]
    ensures Filtered(aux.rows, Collapse(order)) == ranked
  {
    assert t.friendships[..0] == [];
    var m := Collapse(order);
    assert m == map["F" := "f"] by {
      assert order[..0] == [];
    }
    var rows := aux.rows;
    assert rows[1..][1..] == [];
    assert Filtered(rows[1..], m) == [("F", 3)];
  }

  lemma DuplicateAlterFrontier(t: Tables, m: map<string, string>, ranked: seq<Scored>)
    requires t == Tables(true, [Friendship("s", "f", "F")], [ProfileDom("s", 1, "")])
    requires m == map["F" := "f"] && ranked == [("F", 3), ("F", 3)]
    ensures RankedFrontier(t, m, ranked) == ["f", "f"]
  {
    assert Visited(t) == {"s"} by {
      assert t.profileDoms[0] in t.profileDoms;
    }
    assert Head(ranked) == ranked;
    var c := Candidates(ranked, m);
    assert c == [("f", 3), ("f", 3)] by {
      assert ranked[1..][1..] == [];
      assert Candidates(ranked[1..], m) == [("f", 3)];
    }
    assert NotVisited(c, Visited(t)) == c by {
      assert c[1..][1..] == [];
    }
    assert FriendsOf(c) == ["f", "f"];
  }

  /** Two friends recorded under two names with different weights come out
      heavier first, whatever order the database and pandas chose: with
      weights Bob 10 and Ann 5, Bob's friend comes before Ann's. */
  lemma HeavierFirst(t: Tables, profile: string, aux: Aux, order: seq<Pair>, ranked: seq<Scored>,
                     n1: string, n2: string, bob: string, ann: string, w1: int, w2: int)
    requires t.exist && t.friendships == [Friendship(profile, n1, bob), Friendship(profile, n2, ann)]
    requires n1 !in Visited(t) && n2 !in Visited(t)
    requires aux == Aux(true, true, [AuxRow(bob, Num(w1)), AuxRow(ann, Num(w2))])
    requires bob != ann && w1 > w2
    requires Admissible(t, profile, aux.rows, order, ranked)
    ensures SelectIg(t, Some(aux), order, ranked) == Ok([n1, n2])
    ensures SelectFb(t, aux, order, ranked) == Ok([n1, n2])
  {
    var m := map[bob := n1, ann := n2];
    TwoNames(t, profile, order, n1, n2, bob, ann);
    TwoWeights(aux.rows, m, n1, n2, bob, ann, w1, w2);
    HeavierRankedFirst(ranked, Filtered(aux.rows, m), bob, ann, w1, w2);
    TwoFriends(t, m, ranked, n1, n2, bob, ann, w1, w2);
  }

  /** The name map of two friends recorded under two names. */
  lemma TwoNames(t: Tables, profile: string, order: seq<Pair>, n1: string, n2: string, bob: string, ann: string)
    requires t.friendships == [Friendship(profile, n1, bob), Friendship(profile, n2, ann)]
    requires bob != ann
    requires IsDistinctOrder(order, Recorded(t.friendships, profile))
    ensures Collapse(order) == map[bob := n1, ann := n2]
  {
    TwoRecorded(t.friendships, profile, n1, n2, bob, ann);
    MapOfTwo(Collapse(order), order, n1, n2, bob, ann);
  }

  /** A map whose entries are pairs of the list, and which has a key for
      every pair, when the list holds just two pairs with different names. */
  lemma MapOfTwo(m: map<string, string>, order: seq<Pair>, n1: string, n2: string, bob: string, ann: string)
    requires bob != ann
    requires forall p :: p in order <==> p == (bob, n1) || p == (ann, n2)
    requires forall n :: n in m ==> (n, m[n]) in order
    requires forall p :: p in order ==> p.0 in m
    ensures m == map[bob := n1, ann := n2]
  {
    assert (bob, n1) in order && (ann, n2) in order;
    assert m.Keys == {bob, ann};
  }

  lemma TwoRecorded(rows: seq<Friendship>, profile: string, n1: string, n2: string, bob: string, ann: string)
    requires rows == [Friendship(profile, n1, bob), Friendship(profile, n2, ann)]
    ensures forall p :: p in Recorded(rows, profile) <==> p == (bob, n1) || p == (ann, n2)
  {
    forall p ensures p in Recorded(rows, profile) <==> p == (bob, n1) || p == (ann, n2) {
      assert Friendship(profile, p.1, p.0) in rows <==> p == (bob, n1) || p == (ann, n2);
    }
  }

  lemma TwoWeights(rows: seq<AuxRow>, m: map<string, string>, n1: string, n2: string, bob: string, ann: string, w1: int, w2: int)
    requires rows == [AuxRow(bob, Num(w1)), AuxRow(ann, Num(w2))]
    requires m == map[bob := n1, ann := n2]
    ensures Filtered(rows, m) == [(bob, w1), (ann, w2)]
  {
    assert rows[1..][1..] == [];
    assert Filtered(rows[1..], m) == [(ann, w2)];
  }

  /** The only non-increasing order of a heavier and a lighter row. */
  lemma HeavierRankedFirst(ranked: seq<Scored>, f: seq<Scored>, bob: string, ann: string, w1: int, w2: int)
    requires f == [(bob, w1), (ann, w2)] && w1 > w2
    requires IsRanking(ranked, f)
    ensures ranked == f
  {
    var heavy, light := (bob, w1), (ann, w2);
    assert multiset(f) == multiset{heavy, light};
    assert |ranked| == 2 by {
      assert |multiset(ranked)| == 2;
    }
    assert ranked[0] in multiset(ranked) && ranked[1] in multiset(ranked);
    assert ranked == [ranked[0], ranked[1]];
  }

  lemma TwoFriends(t: Tables, m: map<string, string>, ranked: seq<Scored>,
                   n1: string, n2: string, bob: string, ann: string, w1: int, w2: int)
    requires m == map[bob := n1, ann := n2] && bob != ann
    requires ranked == [(bob, w1), (ann, w2)]
    requires n1 !in Visited(t) && n2 !in Visited(t)
    ensures RankedFrontier(t, m, ranked) == [n1, n2]
  {
    assert Head(ranked) == ranked;
    assert ranked[1..][1..] == [];
    var c := Candidates(ranked, m);
    assert Candidates(ranked[1..], m) == [(n2, w2)];
    assert c == [(n1, w1), (n2, w2)];
    assert c[1..][1..] == [];
    assert NotVisited(c, Visited(t)) == c;
    assert FriendsOf(c) == [n1, n2];
  }

  /** SELECT DISTINCT as the first occurrence of each pair, in table order. */
  function Dedup(s: seq<Pair>): (r: seq<Pair>)
    ensures Distinct(r)
    ensures forall p :: p in r <==> p in s
  {
    if s == [] then []
    else
      var init := Dedup(s[..|s| - 1]);
      var last := s[|s| - 1];
      assert s == s[..|s| - 1] + [last];
      if last in init then init else init + [last]
  }

  /** Inserts x after every row at least as heavy (a stable insertion). */
  function InsertByWeight(x: Scored, s: seq<Scored>): (r: seq<Scored>)
    requires NonIncreasing(s)
    ensures NonIncreasing(r)
    ensures multiset(r) == multiset(s) + multiset{x}
  {
    if s == [] then [x]
    else
      assert s == [s[0]] + s[1..];
      NonIncreasingTail(s);
      if s[0].1 >= x.1 then
        var rest := InsertByWeight(x, s[1..]);
        assert AtMost(rest, s[0].1) by {
          forall y | y in rest ensures y.1 <= s[0].1 {
            assert y in multiset(rest);
            if y != x { assert y in multiset(s[1..]); }
          }
        }
        NonIncreasingCons(s[0], rest);
        [s[0]] + rest
      else
        assert AtMost(s, x.1);
        NonIncreasingCons(x, s);
        [x] + s
  }

  /** A descending sort that keeps equal weights in table order. */
  function RankDescending(s: seq<Scored>): (r: seq<Scored>)
    ensures IsRanking(r, s)
  {
    if s == [] then []
    else
      assert s == s[..|s| - 1] + [s[|s| - 1]];
      InsertByWeight(s[|s| - 1], RankDescending(s[..|s| - 1]))
  }

  /** The order the crawl model fixes for SELECT DISTINCT name, friend. */
  function OrderOf(t: Tables, profile: string): seq<Pair>
  {
    Dedup(Recorded(t.friendships, profile))
  }

  /** The order the crawl model fixes for sort_values. */
  function RankingOf(t: Tables, profile: string, rows: seq<AuxRow>): seq<Scored>
  {
    RankDescending(Filtered(rows, Collapse(OrderOf(t, profile))))
  }

  /** The fixed orders are among those the database and pandas may produce. */
  lemma FixedOrdersAdmissible(t: Tables, profile: string, rows: seq<AuxRow>)
    ensures Admissible(t, profile, rows, OrderOf(t, profile), RankingOf(t, profile, rows))
  {
  }

  /** load_not_visited_profiles(db_name, profile_url, auxiliary_df), crawler_ig.py. */
  function LoadNotVisitedIg(t: Tables, profile: string, aux: Option<Aux>): Result<seq<string>>
  {
    SelectIg(t, aux, OrderOf(t, profile), RankingOf(t, profile, AuxRows(aux)))
  }

  /** load_not_visited_profiles(db_name, profile_url, auxiliary_df), crawler.py. */
  function LoadNotVisitedFb(t: Tables, profile: string, aux: Aux): Result<seq<string>>
  {
    SelectFb(t, aux, OrderOf(t, profile), RankingOf(t, profile, aux.rows))
  }
}
