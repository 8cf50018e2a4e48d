/** The driver of crawler_ig.py: visit_and_extract, process_profiles and the
    retry loop of its `__main__` block, over the store of module Store. The
    browser is a parameter: for each visit it yields what the page gave up. */
module IgCrawl {
  import opened Outcome
  import opened Store
  import opened Frontier
  import opened Passes
  import IgNames

  /** What the browser part of visit_and_extract yields for one visit. Errors
      on the page itself are caught there and still lead to a save (of what was
      read so far, with the count and the page HTML read so far), so they are
      among the Fetched outcomes; FetchRaised is an exception from opening or
      closing the browser context, which escapes before anything is saved. */
  datatype Fetch = Fetched(following: seq<Following>, count: int, dom: string) | FetchRaised

  /** The browser, as a function of the URL and of the number of visits made
      before this one in the process. */
  type Browser = (string, nat) -> Fetch

  /** visit_and_extract(url, browser, db_name, …): one visit, saved into the
      store file db unless the browser raised. */
  function Visit(c: Crawl, db: string, url: string, browser: Browser): (p: Pass)
    ensures p.crawl.visits == c.visits + [url]
    ensures p.raised <==> browser(url, |c.visits|).FetchRaised?
    ensures forall n :: n != db ==> Open(p.crawl.files, n) == Open(c.files, n)
  {
    var visits := c.visits + [url];
    match browser(url, |c.visits|)
    case FetchRaised => Pass(Crawl(c.files, visits), true)
    case Fetched(following, count, dom) =>
      Pass(Crawl(c.files[db := AfterSave(Open(c.files, db), url, following, count, dom)], visits), false)
  }

  /** A visit that did not raise leaves the profile marked as visited in its
      store file, with its following list recorded in order after what was
      recorded before. */
  lemma VisitSaves(c: Crawl, db: string, url: string, browser: Browser)
    requires browser(url, |c.visits|).Fetched?
    ensures var t := Open(Visit(c, db, url, browser).crawl.files, db);
      && t.exist
      && Visited(t) == Visited(Open(c.files, db)) + {url}
      && Recorded(t.friendships, url) ==
           Recorded(Open(c.files, db).friendships, url) + Pairs(browser(url, |c.visits|).following)
  {
    var f := browser(url, |c.visits|);
    SaveMarksVisited(Open(c.files, db), url, f.following, f.count, f.dom);
    SaveRecords(Open(c.files, db), url, f.following, f.count, f.dom, url);
  }

  /** The loop `for friend_url in not_visited` of process_profiles: every entry
      but the seed itself is visited, in order, until a visit raises. */
  function VisitAll(c: Crawl, db: string, frontier: seq<string>, seed: string, browser: Browser): (p: Pass)
    ensures c.visits <= p.crawl.visits
    ensures forall n :: n != db ==> Open(p.crawl.files, n) == Open(c.files, n)
    decreases |frontier|
  {
    if frontier == [] then Pass(c, false)
    else if frontier[0] == seed then VisitAll(c, db, frontier[1..], seed, browser)
    else
      var p := Visit(c, db, frontier[0], browser);
      if p.raised then p else VisitAll(p.crawl, db, frontier[1..], seed, browser)
  }

  /** The visits that led from c to p are the planned URLs in order: all of
      them when nothing raised, else those up to and including the visit that
      raised. */
  predicate VisitedInOrder(c: Crawl, p: Pass, planned: seq<string>, browser: Browser)
  {
    FollowsPlan(c, p, planned) && RaisedLast(c, p, browser)
  }

  /** A pass that raised did so at its last visit. */
  predicate RaisedLast(c: Crawl, p: Pass, browser: Browser)
    requires c.visits <= p.crawl.visits
  {
    var made := After(c.visits, p.crawl.visits);
    p.raised ==> made != [] && browser(made[|made| - 1], |p.crawl.visits| - 1).FetchRaised?
  }

  lemma {:induction false} VisitAllOrder(c: Crawl, db: string, frontier: seq<string>, seed: string, browser: Browser)
    ensures VisitedInOrder(c, VisitAll(c, db, frontier, seed, browser), Without(frontier, seed), browser)
    decreases |frontier|
  {
    var p := VisitAll(c, db, frontier, seed, browser);
    if frontier != [] {
      var rest := frontier[1..];
      if frontier[0] == seed {
        VisitAllOrder(c, db, rest, seed, browser);
        assert p == VisitAll(c, db, rest, seed, browser);
        assert Without(frontier, seed) == Without(rest, seed);
      } else {
        var q := Visit(c, db, frontier[0], browser);
        assert Without(frontier, seed) == [frontier[0]] + Without(rest, seed);
        if q.raised {
          assert p == q;
          assert After(c.visits, p.crawl.visits) == [frontier[0]];
        } else {
          VisitAllOrder(q.crawl, db, rest, seed, browser);
          assert p == VisitAll(q.crawl, db, rest, seed, browser);
          FollowsPlanStep(c, q.crawl, p, frontier[0], Without(rest, seed));
          RaisedLastStep(c, q.crawl, p, browser);
        }
      }
    }
  }

  /** A pass that raised at its last visit after q also did so after any
      crawl q extends by one visit. */
  lemma RaisedLastStep(c: Crawl, q: Crawl, p: Pass, browser: Browser)
    requires |q.visits| == |c.visits| + 1 && c.visits <= q.visits && q.visits <= p.crawl.visits
    requires RaisedLast(q, p, browser)
    ensures RaisedLast(c, p, browser)
  {
    if p.raised {
      var made := After(c.visits, p.crawl.visits);
      var later := After(q.visits, p.crawl.visits);
      assert made == made[..1] + later;
      assert made[|made| - 1] == later[|later| - 1];
    }
  }

  /** One iteration of process_profiles for one seed URL. The seed's store
      file is named after the seed. If load_not_visited_profiles succeeds the
      frontier it returns is walked; if it raises (no tables yet) the seed is
      visited first, the frontier is loaded again, an error there counting as
      an empty frontier, and then walked. */
  function SeedRun(c: Crawl, seed: string, aux: Option<Aux>, browser: Browser): Pass
  {
    SeedRunAt(c, IgNames.ExtractProfileName(seed), seed, aux, browser)
  }

  /** The same iteration, for the store file named db. */
  function SeedRunAt(c: Crawl, db: string, seed: string, aux: Option<Aux>, browser: Browser): Pass
  {
    var first := LoadNotVisitedIg(Open(c.files, db), seed, aux);
    if first.Ok? then VisitAll(c, db, first.value, seed, browser)
    else
      var p := Visit(c, db, seed, browser);
      if p.raised then p
      else
        var second := LoadNotVisitedIg(Open(p.crawl.files, db), seed, aux);
        VisitAll(p.crawl, db, if second.Ok? then second.value else [], seed, browser)
  }

  /** A seed whose store file has tables is not visited again: the visits
      follow the frontier loaded at the start, in order. */
  lemma KnownSeedRun(c: Crawl, seed: string, aux: Option<Aux>, browser: Browser)
    requires Open(c.files, IgNames.ExtractProfileName(seed)).exist
    ensures var first := LoadNotVisitedIg(Open(c.files, IgNames.ExtractProfileName(seed)), seed, aux);
      && first.Ok?
      && VisitedInOrder(c, SeedRun(c, seed, aux, browser), Without(first.value, seed), browser)
  {
    var db := IgNames.ExtractProfileName(seed);
    VisitAllOrder(c, db, LoadNotVisitedIg(Open(c.files, db), seed, aux).value, seed, browser);
  }

  /** A seed whose store file has no tables yet is visited first. */
  lemma NewSeedFirst(c: Crawl, seed: string, aux: Option<Aux>, browser: Browser)
    requires !Open(c.files, IgNames.ExtractProfileName(seed)).exist
    ensures var p := SeedRun(c, seed, aux, browser);
      c.visits <= p.crawl.visits && |p.crawl.visits| > |c.visits| && p.crawl.visits[|c.visits|] == seed
  {
    NewSeedFirstAt(c, IgNames.ExtractProfileName(seed), seed, aux, browser);
  }

  lemma NewSeedFirstAt(c: Crawl, db: string, seed: string, aux: Option<Aux>, browser: Browser)
    requires !Open(c.files, db).exist
    ensures var p := SeedRunAt(c, db, seed, aux, browser);
      c.visits <= p.crawl.visits && |p.crawl.visits| > |c.visits| && p.crawl.visits[|c.visits|] == seed
  {
    var q := Visit(c, db, seed, browser);
    var p := SeedRunAt(c, db, seed, aux, browser);
    if q.raised {
      assert p == q;
    } else {
      var second := LoadNotVisitedIg(Open(q.crawl.files, db), seed, aux);
      assert p == VisitAll(q.crawl, db, if second.Ok? then second.value else [], seed, browser);
    }
  }

  /** If that first visit does not raise, the reload of the frontier cannot
      fail (so the `except` branch that empties it is never taken), and the
      visits that follow walk it in order. */
  lemma NewSeedRest(c: Crawl, seed: string, aux: Option<Aux>, browser: Browser)
    requires !Open(c.files, IgNames.ExtractProfileName(seed)).exist
    requires browser(seed, |c.visits|).Fetched?
    ensures var db := IgNames.ExtractProfileName(seed);
      var q := Visit(c, db, seed, browser).crawl;
      var second := LoadNotVisitedIg(Open(q.files, db), seed, aux);
      && second.Ok?
      && VisitedInOrder(q, SeedRun(c, seed, aux, browser), Without(second.value, seed), browser)
  {
    var db := IgNames.ExtractProfileName(seed);
    var q := Visit(c, db, seed, browser);
    var second := LoadNotVisitedIg(Open(q.crawl.files, db), seed, aux);
    assert SeedRun(c, seed, aux, browser) == VisitAll(q.crawl, db, second.value, seed, browser);
    VisitAllOrder(q.crawl, db, second.value, seed, browser);
  }

  /** A seed is visited in its own iteration exactly when its store file had
      no tables at the start of it. */
  lemma SeedVisitedIffNew(c: Crawl, seed: string, aux: Option<Aux>, browser: Browser)
    ensures var p := SeedRun(c, seed, aux, browser);
      && c.visits <= p.crawl.visits
      && (seed in After(c.visits, p.crawl.visits) <==> !Open(c.files, IgNames.ExtractProfileName(seed)).exist)
  {
    var db := IgNames.ExtractProfileName(seed);
    var p := SeedRun(c, seed, aux, browser);
    if Open(c.files, db).exist {
      KnownSeedRun(c, seed, aux, browser);
      var planned := Without(LoadNotVisitedIg(Open(c.files, db), seed, aux).value, seed);
      PrefixMembers(After(c.visits, p.crawl.visits), planned);
    } else {
      NewSeedFirst(c, seed, aux, browser);
      assert After(c.visits, p.crawl.visits)[0] == seed;
    }
  }

  /** On the ranked path (a weight table with both columns) the iteration of
      a known seed makes at most TopN visits, none to the seed and none to a
      profile that had a profile_doms row when the frontier was loaded. */
  lemma RankedRunSkipsVisited(c: Crawl, seed: string, aux: Aux, browser: Browser)
    requires Open(c.files, IgNames.ExtractProfileName(seed)).exist
    requires aux.hasAlter && aux.hasInteractions
    ensures var t := Open(c.files, IgNames.ExtractProfileName(seed));
      var p := SeedRun(c, seed, Some(aux), browser);
      && c.visits <= p.crawl.visits
      && |After(c.visits, p.crawl.visits)| <= TopN
      && forall u :: u in After(c.visits, p.crawl.visits) ==> u != seed && u !in Visited(t)
  {
    var t := Open(c.files, IgNames.ExtractProfileName(seed));
    KnownSeedRun(c, seed, Some(aux), browser);
    FixedOrdersAdmissible(t, seed, aux.rows);
    RankedIg(t, seed, aux, OrderOf(t, seed), RankingOf(t, seed, aux.rows));
    var frontier := LoadNotVisitedIg(t, seed, Some(aux)).value;
    PrefixMembers(After(c.visits, SeedRun(c, seed, Some(aux), browser).crawl.visits), Without(frontier, seed));
  }

  /** On the ranked path the iteration of a new seed, after the seed's own
      visit, makes at most TopN visits, none to the seed and none to a
      profile that had a profile_doms row when the frontier was loaded,
      which is right after that visit. */
  lemma RankedNewSeedSkipsVisited(c: Crawl, seed: string, aux: Aux, browser: Browser)
    requires !Open(c.files, IgNames.ExtractProfileName(seed)).exist
    requires aux.hasAlter && aux.hasInteractions
    ensures var db := IgNames.ExtractProfileName(seed);
      var q := Visit(c, db, seed, browser).crawl;
      var p := SeedRun(c, seed, Some(aux), browser);
      && q.visits <= p.crawl.visits
      && |After(q.visits, p.crawl.visits)| <= TopN
      && forall u :: u in After(q.visits, p.crawl.visits) ==> u != seed && u !in Visited(Open(q.files, db))
  {
    var db := IgNames.ExtractProfileName(seed);
    var q := Visit(c, db, seed, browser);
    var p := SeedRun(c, seed, Some(aux), browser);
    if q.raised {
      assert p == q;
    } else {
      NewSeedRest(c, seed, Some(aux), browser);
      VisitSaves(c, db, seed, browser);
      var t := Open(q.crawl.files, db);
      FixedOrdersAdmissible(t, seed, aux.rows);
      RankedIg(t, seed, aux, OrderOf(t, seed), RankingOf(t, seed, aux.rows));
      var frontier := LoadNotVisitedIg(t, seed, Some(aux)).value;
      PrefixMembers(After(q.crawl.visits, p.crawl.visits), Without(frontier, seed));
    }
  }

  /** What a visit of a seed's iteration may be on the ranked path, given the
      seed's store file at the start of the iteration: the seed itself when
      the file had no tables, or another profile with no profile_doms row in
      it. */
  ghost predicate RankedVisit(t: Tables, seed: string, u: string)
  {
    (u == seed && !t.exist) || (u != seed && u !in Visited(t))
  }

  /** Every visit made is a ranked visit for the seed's store file t. */
  ghost predicate AllRanked(t: Tables, seed: string, made: seq<string>)
  {
    forall u :: u in made ==> RankedVisit(t, seed, u)
  }

  /** On the ranked path every visit of a seed's iteration, new seed or known
      seed, is a ranked visit for the seed's store file at its start. */
  lemma RankedSeedRun(c: Crawl, seed: string, aux: Aux, browser: Browser)
    requires aux.hasAlter && aux.hasInteractions
    ensures var p := SeedRun(c, seed, Some(aux), browser);
      && c.visits <= p.crawl.visits
      && AllRanked(Open(c.files, IgNames.ExtractProfileName(seed)), seed, After(c.visits, p.crawl.visits))
  {
    if Open(c.files, IgNames.ExtractProfileName(seed)).exist {
      RankedRunSkipsVisited(c, seed, aux, browser);
    } else {
      RankedNewSeedRun(c, seed, aux, browser);
    }
  }

  lemma RankedNewSeedRun(c: Crawl, seed: string, aux: Aux, browser: Browser)
    requires !Open(c.files, IgNames.ExtractProfileName(seed)).exist
    requires aux.hasAlter && aux.hasInteractions
    ensures var p := SeedRun(c, seed, Some(aux), browser);
      && c.visits <= p.crawl.visits
      && AllRanked(Open(c.files, IgNames.ExtractProfileName(seed)), seed, After(c.visits, p.crawl.visits))
  {
    var db := IgNames.ExtractProfileName(seed);
    var t := Open(c.files, db);
    var q := Visit(c, db, seed, browser).crawl;
    var p := SeedRun(c, seed, Some(aux), browser).crawl;
    RankedNewSeedSkipsVisited(c, seed, aux, browser);
    VisitGrows(c, db, seed, browser);
    ExtendsVisited(t, Open(q.files, db));
    SeedThenRanked(c.visits, q.visits, p.visits, t, Visited(Open(q.files, db)), seed);
  }

  /** The seed's visit followed by visits to profiles unvisited after it:
      all of them are ranked visits for the store file before the seed's
      visit. */
  lemma SeedThenRanked(before: seq<string>, mid: seq<string>, after: seq<string>, t: Tables,
                       visitedMid: set<string>, seed: string)
    requires !t.exist && mid == before + [seed] && mid <= after
    requires Visited(t) <= visitedMid
    requires forall u :: u in After(mid, after) ==> u != seed && u !in visitedMid
    ensures before <= after && AllRanked(t, seed, After(before, after))
  {
    AfterStep(before, seed, after);
  }

  /** A ranked visit for a store file is one for every earlier state of it. */
  lemma RankedVisitEarlier(a: Tables, b: Tables, seed: string, u: string)
    requires Extends(a, b) && RankedVisit(b, seed, u)
    ensures RankedVisit(a, seed, u)
  {
    ExtendsVisited(a, b);
  }

  /** One visit only appends to store files. */
  lemma VisitGrows(c: Crawl, db: string, url: string, browser: Browser)
    ensures Grows(c, Visit(c, db, url, browser).crawl)
  {
    var f := browser(url, |c.visits|);
    if f.Fetched? {
      AfterSaveExtends(Open(c.files, db), url, f.following, f.count, f.dom);
    }
  }

  lemma {:induction false} VisitAllGrows(c: Crawl, db: string, frontier: seq<string>, seed: string, browser: Browser)
    ensures Grows(c, VisitAll(c, db, frontier, seed, browser).crawl)
    decreases |frontier|
  {
    if frontier != [] {
      if frontier[0] == seed {
        VisitAllGrows(c, db, frontier[1..], seed, browser);
      } else {
        var q := Visit(c, db, frontier[0], browser);
        VisitGrows(c, db, frontier[0], browser);
        if !q.raised {
          VisitAllGrows(q.crawl, db, frontier[1..], seed, browser);
        }
      }
    }
  }

  /** A seed's iteration only appends to store files. */
  lemma SeedRunGrows(c: Crawl, seed: string, aux: Option<Aux>, browser: Browser)
    ensures Grows(c, SeedRun(c, seed, aux, browser).crawl)
  {
    var db := IgNames.ExtractProfileName(seed);
    var first := LoadNotVisitedIg(Open(c.files, db), seed, aux);
    var p := SeedRun(c, seed, aux, browser);
    if first.Ok? {
      assert p == VisitAll(c, db, first.value, seed, browser);
      VisitAllGrows(c, db, first.value, seed, browser);
    } else {
      var q := Visit(c, db, seed, browser);
      VisitGrows(c, db, seed, browser);
      if !q.raised {
        var second := LoadNotVisitedIg(Open(q.crawl.files, db), seed, aux);
        var rest := if second.Ok? then second.value else [];
        assert p == VisitAll(q.crawl, db, rest, seed, browser);
        VisitAllGrows(q.crawl, db, rest, seed, browser);
        GrowsTrans(c, q.crawl, p.crawl);
      } else {
        assert p == q;
      }
    }
  }

  /** A visit the pass makes on the ranked path is a ranked visit, for the
      store files at the start of the pass, of one of its seeds. */
  ghost predicate RankedPassVisit(c: Crawl, seeds: seq<string>, u: string)
  {
    exists s :: s in seeds && RankedVisit(Open(c.files, IgNames.ExtractProfileName(s)), s, u)
  }

  ghost predicate AllPassRanked(c: Crawl, seeds: seq<string>, made: seq<string>)
  {
    forall u :: u in made ==> RankedPassVisit(c, seeds, u)
  }

  /** On the ranked path a whole pass visits a seed only when its store file
      had no tables when the pass began, and any other profile only when it
      had no profile_doms row, when the pass began, in the store file of a
      seed other than itself. */
  lemma {:induction false} RankedPassSkipsVisited(c: Crawl, seeds: seq<string>, aux: Aux, browser: Browser)
    requires aux.hasAlter && aux.hasInteractions
    ensures var p := ProfilesRun(c, seeds, Some(aux), browser);
      && c.visits <= p.crawl.visits
      && AllPassRanked(c, seeds, After(c.visits, p.crawl.visits))
    decreases |seeds|
  {
    if seeds != [] {
      var q := SeedRun(c, seeds[0], Some(aux), browser);
      RankedSeedRun(c, seeds[0], aux, browser);
      FirstSeedRanked(c, seeds, After(c.visits, q.crawl.visits));
      if !q.raised {
        var p := ProfilesRun(q.crawl, seeds[1..], Some(aux), browser);
        assert p == ProfilesRun(c, seeds, Some(aux), browser);
        RankedPassSkipsVisited(q.crawl, seeds[1..], aux, browser);
        SeedRunGrows(c, seeds[0], Some(aux), browser);
        LaterSeedsRanked(c, q.crawl, seeds, After(q.crawl.visits, p.crawl.visits));
        AfterSplit(c.visits, q.crawl.visits, p.crawl.visits);
      }
    }
  }

  lemma FirstSeedRanked(c: Crawl, seeds: seq<string>, made: seq<string>)
    requires seeds != []
    requires AllRanked(Open(c.files, IgNames.ExtractProfileName(seeds[0])), seeds[0], made)
    ensures AllPassRanked(c, seeds, made)
  {
    assert seeds[0] in seeds;
  }

  lemma LaterSeedsRanked(c: Crawl, d: Crawl, seeds: seq<string>, made: seq<string>)
    requires seeds != [] && Grows(c, d)
    requires AllPassRanked(d, seeds[1..], made)
    ensures AllPassRanked(c, seeds, made)
  {
    forall u | u in made ensures RankedPassVisit(c, seeds, u) {
      var s :| s in seeds[1..] && RankedVisit(Open(d.files, IgNames.ExtractProfileName(s)), s, u);
      var db := IgNames.ExtractProfileName(s);
      RankedVisitEarlier(Open(c.files, db), Open(d.files, db), s, u);
      assert s in seeds;
    }
  }

  /** process_profiles: the seeds in the order given, up to the first one
      whose iteration raises. */
  function ProfilesRun(c: Crawl, seeds: seq<string>, aux: Option<Aux>, browser: Browser): Pass
    decreases |seeds|
  {
    if seeds == [] then Pass(c, false)
    else
      var p := SeedRun(c, seeds[0], aux, browser);
      if p.raised then p else ProfilesRun(p.crawl, seeds[1..], aux, browser)
  }

  /** A frontier may list the same URL twice (a friend recorded under two
      names that both carry a weight); every listing is visited, so the
      profile is fetched and saved twice. */
  lemma RepeatedEntryVisitedTwice(c: Crawl, db: string, seed: string, url: string, browser: Browser)
    requires url != seed
    requires forall k :: browser(url, k).Fetched?
    ensures VisitAll(c, db, [url, url], seed, browser).crawl.visits == c.visits + [url, url]
    ensures !VisitAll(c, db, [url, url], seed, browser).raised
  {
    var q := Visit(c, db, url, browser);
    assert !q.raised;
    assert [url, url][1..] == [url];
    assert VisitAll(c, db, [url, url], seed, browser) == VisitAll(q.crawl, db, [url], seed, browser);
    var r := Visit(q.crawl, db, url, browser);
    assert !r.raised;
    assert [url][1..] == [];
    assert VisitAll(q.crawl, db, [url], seed, browser) == VisitAll(r.crawl, db, [], seed, browser);
    assert r.crawl.visits == c.visits + [url, url];
  }

  /** The delays of the `__main__` block, one per attempt. */
  const RetryDelays: seq<nat> := [0, 100, 400, 800]

  /** The retry loop from attempt idx on: a pass that does not raise ends it
      with status 0; one that raises is followed by a sleep of its delay
      unless that is 0 or it was the last attempt; after the last failed
      attempt the process exits with status 1. */
  function Retry(c: Crawl, pass: Crawl -> Pass, idx: nat, attempts: seq<bool>, sleeps: seq<nat>): Run
    requires idx <= |RetryDelays|
    decreases |RetryDelays| - idx
  {
    if idx == |RetryDelays| then Run(c, attempts, sleeps, 1)
    else
      var p := pass(c);
      if !p.raised then Run(p.crawl, attempts + [false], sleeps, 0)
      else
        var delay := RetryDelays[idx];
        Retry(p.crawl, pass, idx + 1, attempts + [true],
              if idx < |RetryDelays| - 1 && delay != 0 then sleeps + [delay] else sleeps)
  }

  /** One attempt of the retry loop, whatever the pass it makes. */
  lemma RetryStep(c: Crawl, pass: Crawl -> Pass, idx: nat, attempts: seq<bool>, sleeps: seq<nat>, p: Pass)
    requires idx < |RetryDelays| && p == pass(c)
    ensures !p.raised ==> Retry(c, pass, idx, attempts, sleeps) == Run(p.crawl, attempts + [false], sleeps, 0)
    ensures p.raised ==>
      Retry(c, pass, idx, attempts, sleeps) ==
      Retry(p.crawl, pass, idx + 1, attempts + [true],
            if idx < |RetryDelays| - 1 && RetryDelays[idx] != 0 then sleeps + [RetryDelays[idx]] else sleeps)
  {
  }

  /** One call of process_profiles over the seed list, as a function of the
      crawl it starts from. */
  function PassOf(seeds: seq<string>, aux: Option<Aux>, browser: Browser): Crawl -> Pass
  {
    c => ProfilesRun(c, seeds, aux, browser)
  }

  /** The whole `__main__` block after the seed list is loaded. */
  function RunIg(c: Crawl, seeds: seq<string>, aux: Option<Aux>, browser: Browser): Run
  {
    Retry(c, PassOf(seeds, aux, browser), 0, [], [])
  }

  /** The sleeps that precede the next attempt once `failed` attempts have
      raised: none after the first (its delay is 0) or after the last. */
  function SleptAfter(failed: nat): seq<nat>
  {
    if failed <= 1 then [] else if failed == 2 then [100] else [100, 400]
  }

  /** A run of the retry loop as it stands before attempt idx. */
  predicate RetryShape(r: Run)
  {
    && 1 <= |r.attempts| <= |RetryDelays|
    && (forall i :: 0 <= i < |r.attempts| - 1 ==> r.attempts[i])
    && (r.exitStatus == 1 <==> r.attempts[|r.attempts| - 1])
    && (r.exitStatus == 1 ==> |r.attempts| == |RetryDelays|)
    && (r.exitStatus == 0 || r.exitStatus == 1)
    && r.sleeps == SleptAfter(|r.attempts| - (if r.exitStatus == 0 then 1 else 0))
  }

  lemma {:induction false} RetryFrom(c: Crawl, pass: Crawl -> Pass, idx: nat, attempts: seq<bool>, sleeps: seq<nat>)
    requires idx < |RetryDelays|
    requires |attempts| == idx && (forall i :: 0 <= i < idx ==> attempts[i])
    requires sleeps == SleptAfter(idx)
    ensures RetryShape(Retry(c, pass, idx, attempts, sleeps))
    decreases |RetryDelays| - idx
  {
    var p := pass(c);
    if p.raised && idx + 1 < |RetryDelays| {
      var delay := RetryDelays[idx];
      RetryFrom(p.crawl, pass, idx + 1, attempts + [true],
                if idx < |RetryDelays| - 1 && delay != 0 then sleeps + [delay] else sleeps);
    }
  }

  /** The process makes between one and four attempts, every attempt but the
      last raised, it exits with status 1 exactly when the last raised (and
      then all four did), and it slept 100 s and then 400 s after the second
      and third failed attempts only. */
  lemma RunShape(c: Crawl, seeds: seq<string>, aux: Option<Aux>, browser: Browser)
    ensures RetryShape(RunIg(c, seeds, aux, browser))
  {
    RetryFrom(c, PassOf(seeds, aux, browser), 0, [], []);
  }

  /** A first pass that does not raise is the only one. */
  lemma FirstPassSucceeds(c: Crawl, seeds: seq<string>, aux: Option<Aux>, browser: Browser)
    requires !ProfilesRun(c, seeds, aux, browser).raised
    ensures RunIg(c, seeds, aux, browser) == Run(ProfilesRun(c, seeds, aux, browser).crawl, [false], [], 0)
  {
  }

  /** visit_and_extract on the crawler's state: the visit is logged, and
      save_to_duckdb runs unless the browser raised. */
  method VisitAndExtract(w: Workspace, db: string, url: string, browser: Browser) returns (raised: bool)
    modifies w
    ensures Pass(w.State(), raised) == Visit(old(w.State()), db, url, browser)
  {
    var fetched := browser(url, |w.visits|);
    w.visits := w.visits + [url];
    if fetched.FetchRaised? {
      return true;
    }
    w.SaveToDuckdb(db, url, fetched.following, fetched.count, fetched.dom);
    raised := false;
  }

  /** The loop over the frontier in process_profiles. */
  method VisitFrontier(w: Workspace, db: string, frontier: seq<string>, seed: string, browser: Browser)
    returns (raised: bool)
    modifies w
    ensures Pass(w.State(), raised) == VisitAll(old(w.State()), db, frontier, seed, browser)
  {
    ghost var goal := VisitAll(w.State(), db, frontier, seed, browser);
    raised := false;
    for i := 0 to |frontier|
      invariant VisitAll(w.State(), db, frontier[i..], seed, browser) == goal
    {
      assert frontier[i..][1..] == frontier[i + 1..];
      if frontier[i] == seed {
        continue;
      }
      raised := VisitAndExtract(w, db, frontier[i], browser);
      if raised {
        return;
      }
    }
  }

  /** The body of process_profiles for one seed. */
  method ProcessSeed(w: Workspace, seed: string, aux: Option<Aux>, browser: Browser) returns (raised: bool)
    modifies w
    ensures Pass(w.State(), raised) == SeedRun(old(w.State()), seed, aux, browser)
  {
    ghost var c := w.State();
    var db := IgNames.ExtractProfileName(seed);
    var notVisited := LoadNotVisitedIg(Open(w.files, db), seed, aux);
    if notVisited.Raises? {
      raised := VisitAndExtract(w, db, seed, browser);
      if raised {
        return;
      }
      ghost var q := w.State();
      assert q == Visit(c, db, seed, browser).crawl;
      notVisited := LoadNotVisitedIg(Open(w.files, db), seed, aux);
      if notVisited.Raises? {
        notVisited := Ok([]);
      }
      assert SeedRun(c, seed, aux, browser) == VisitAll(q, db, notVisited.value, seed, browser);
    } else {
      assert SeedRun(c, seed, aux, browser) == VisitAll(c, db, notVisited.value, seed, browser);
    }
    raised := VisitFrontier(w, db, notVisited.value, seed, browser);
  }

  /** process_profiles(profile_urls, df_interactions, browser, …). */
  method ProcessProfiles(w: Workspace, seeds: seq<string>, aux: Option<Aux>, browser: Browser) returns (raised: bool)
    modifies w
    ensures Pass(w.State(), raised) == ProfilesRun(old(w.State()), seeds, aux, browser)
  {
    ghost var goal := ProfilesRun(w.State(), seeds, aux, browser);
    raised := false;
    for i := 0 to |seeds|
      invariant ProfilesRun(w.State(), seeds[i..], aux, browser) == goal
    {
      assert seeds[i..][1..] == seeds[i + 1..];
      raised := ProcessSeed(w, seeds[i], aux, browser);
      if raised {
        return;
      }
    }
  }

  /** The retry loop of the `__main__` block: it returns the exit status, the
      outcome of each attempt and the sleeps in between. */
  method CrawlWithRetries(w: Workspace, seeds: seq<string>, aux: Option<Aux>, browser: Browser)
    returns (exitStatus: int, attempts: seq<bool>, sleeps: seq<nat>)
    modifies w
    ensures Run(w.State(), attempts, sleeps, exitStatus) == RunIg(old(w.State()), seeds, aux, browser)
  {
    attempts, sleeps := [], [];
    for idx := 0 to |RetryDelays|
      invariant Retry(w.State(), PassOf(seeds, aux, browser), idx, attempts, sleeps) ==
                RunIg(old(w.State()), seeds, aux, browser)
    {
      ghost var before := w.State();
      var raised := ProcessProfiles(w, seeds, aux, browser);
      assert PassOf(seeds, aux, browser)(before) == Pass(w.State(), raised);
      RetryStep(before, PassOf(seeds, aux, browser), idx, attempts, sleeps, Pass(w.State(), raised));
      if !raised {
        attempts := attempts + [false];
        return 0, attempts, sleeps;
      }
      attempts := attempts + [true];
      if idx < |RetryDelays| - 1 && RetryDelays[idx] != 0 {
        sleeps := sleeps + [RetryDelays[idx]];
      }
    }
    exitStatus := 1;
  }
}
