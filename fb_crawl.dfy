/** The driver of crawler.py: visit_and_extract, process_profiles and the four
    blocks of its `__main__` block, over the store of module Store. The browser
    is a parameter: for each visit it yields what the friends page showed. */
module FbCrawl {
  import opened Outcome
  import opened Text
  import opened Store
  import opened Frontier
  import opened Passes
  import opened FbNames

  /** What the browser part of visit_and_extract yields for one visit: a
      friends tab that is not visible, or the friend list and the text of the
      friend-count link, or an exception (navigation, a missing element),
      which escapes before anything is saved. */
  datatype Fetch = Hidden | Visible(friends: seq<Following>, countText: string) | FetchRaised

  /** The browser, as a function of the URL and of the number of visits made
      before this one in the process. */
  type Browser = (string, nat) -> Fetch

  /** How the friend-count text is read. The functions and methods below take
      it as a parameter; CrawlFacebook fixes it to parse_number_of_friends
      (FbNames.ParseNumberOfFriends). */
  type Parser = string -> Result<int>

  /** Whether visit_and_extract raises on this page: the browser raised, the
      friend count does not parse, or it parses to a negative number, for
      which the time.sleep(n_friends/5) of zoom_out_load_friends raises
      ValueError. */
  predicate Fails(f: Fetch, parse: Parser)
  {
    f.FetchRaised? || (f.Visible? && (parse(f.countText).Raises? || parse(f.countText).value < 0))
  }

  /** visit_and_extract(url, browser, db_name, …): a hidden friend list is
      saved as no friends with count -1; a visible one with a count that is
      not negative is saved without the entries whose URL contains the
      visited URL, with the parsed count; the page HTML is always saved as
      "". */
  function Visit(c: Crawl, db: string, url: string, browser: Browser, parse: Parser): (p: Pass)
    ensures p.crawl.visits == c.visits + [url]
    ensures p.raised <==> Fails(browser(url, |c.visits|), parse)
    ensures p.raised ==> p.crawl.files == c.files
    ensures !p.raised ==> Open(p.crawl.files, db).exist
    ensures forall n :: n != db ==> Open(p.crawl.files, n) == Open(c.files, n)
  {
    var visits := c.visits + [url];
    match browser(url, |c.visits|)
    case FetchRaised => Pass(Crawl(c.files, visits), true)
    case Hidden =>
      Pass(Crawl(c.files[db := AfterSave(Open(c.files, db), url, [], -1, "")], visits), false)
    case Visible(friends, text) =>
      match parse(text)
      case Raises(_) => Pass(Crawl(c.files, visits), true)
      case Ok(n) =>
        if n < 0 then Pass(Crawl(c.files, visits), true)
        else Pass(Crawl(c.files[db := AfterSave(Open(c.files, db), url, ExcludeSelf(friends, url), n, "")], visits), false)
  }

  /** A hidden friend list marks the profile visited with count -1 and
      records no friend for it. */
  lemma HiddenSaves(c: Crawl, db: string, url: string, browser: Browser, parse: Parser)
    requires browser(url, |c.visits|).Hidden?
    ensures var t := Open(Visit(c, db, url, browser, parse).crawl.files, db);
      && t.exist
      && Visited(t) == Visited(Open(c.files, db)) + {url}
      && t.profileDoms[|t.profileDoms| - 1] == ProfileDom(url, -1, "")
      && Recorded(t.friendships, url) == Recorded(Open(c.files, db).friendships, url)
  {
    SaveMarksVisited(Open(c.files, db), url, [], -1, "");
    SaveRecords(Open(c.files, db), url, [], -1, "", url);
  }

  /** A visible friend list with a count that parses to a number that is not
      negative marks the profile visited with that count and records, in
      order, the friends whose URL does not contain the profile's own. */
  lemma VisibleSaves(c: Crawl, db: string, url: string, browser: Browser, parse: Parser)
    requires browser(url, |c.visits|).Visible?
    requires parse(browser(url, |c.visits|).countText).Ok?
    requires parse(browser(url, |c.visits|).countText).value >= 0
    ensures var f := browser(url, |c.visits|);
      var t := Open(Visit(c, db, url, browser, parse).crawl.files, db);
      && t.exist
      && Visited(t) == Visited(Open(c.files, db)) + {url}
      && t.profileDoms[|t.profileDoms| - 1] == ProfileDom(url, parse(f.countText).value, "")
      && Recorded(t.friendships, url) ==
           Recorded(Open(c.files, db).friendships, url) + Pairs(ExcludeSelf(f.friends, url))
  {
    var f := browser(url, |c.visits|);
    var n := parse(f.countText).value;
    SaveMarksVisited(Open(c.files, db), url, ExcludeSelf(f.friends, url), n, "");
    SaveRecords(Open(c.files, db), url, ExcludeSelf(f.friends, url), n, "", url);
  }

  /** A visible friend list whose count reads "-" and digits spelling a
      positive number raises before the save: the visit is logged and no
      store file changes. */
  lemma NegativeCountRaises(c: Crawl, db: string, url: string, browser: Browser, ds: string)
    requires ds != [] && AllDigits(ds) && DecimalValue(ds) > 0
    requires browser(url, |c.visits|).Visible? && browser(url, |c.visits|).countText == ['-'] + ds
    ensures var p := Visit(c, db, url, browser, ParseNumberOfFriends);
      p.raised && p.crawl == Crawl(c.files, c.visits + [url])
  {
    NegativeCount(ds);
  }

  /** No recorded friend URL contains the URL of the profile it was recorded
      for. */
  ghost predicate SelfFree(t: Tables)
  {
    forall r :: r in t.friendships ==> !Contains(r.friend, r.profile)
  }

  /** Every store file the crawler writes stays self-free. */
  lemma VisitKeepsSelfFree(c: Crawl, db: string, url: string, browser: Browser, parse: Parser)
    requires forall n :: SelfFree(Open(c.files, n))
    ensures forall n :: SelfFree(Open(Visit(c, db, url, browser, parse).crawl.files, n))
  {
    var p := Visit(c, db, url, browser, parse);
    var f := browser(url, |c.visits|);
    if !p.raised {
      var t := Open(c.files, db);
      var saved := if f.Hidden? then [] else ExcludeSelf(f.friends, url);
      assert Open(p.crawl.files, db) == AfterSave(t, url, saved, if f.Hidden? then -1 else parse(f.countText).value, "");
      forall r | r in Open(p.crawl.files, db).friendships ensures !Contains(r.friend, r.profile) {
        if r !in t.friendships {
          var i :| 0 <= i < |saved| && r == Friendship(url, saved[i].url, saved[i].name);
          assert saved[i] in saved;
        }
      }
    }
  }

  /** In a self-free store file, a seed is never in its own ranked frontier,
      so the missing `friend_url == profile_url` guard of crawler.py changes
      nothing for files this crawler wrote. */
  lemma SeedNotInOwnFrontier(t: Tables, seed: string, aux: Aux)
    requires SelfFree(t)
    requires LoadNotVisitedFb(t, seed, aux).Ok?
    ensures seed !in LoadNotVisitedFb(t, seed, aux).value
  {
    FixedOrdersAdmissible(t, seed, aux.rows);
    RankedFb(t, seed, aux, OrderOf(t, seed), RankingOf(t, seed, aux.rows));
    var r := LoadNotVisitedFb(t, seed, aux).value;
    if seed in r {
      var i :| 0 <= i < |r| && r[i] == seed;
      var ws: seq<int> :| |ws| == |r| && forall j :: 0 <= j < |ws| ==> Grounded(t, seed, aux.rows, r[j], ws[j]);
      assert Grounded(t, seed, aux.rows, r[i], ws[i]);
      var n :| Friendship(seed, seed, n) in t.friendships && HasWeight(aux.rows, n, ws[i]);
      ContainsItself(seed);
    }
  }

  /** The loop `for friend_url in not_visited` of crawler.py: every entry is
      visited, in order, until a visit raises. */
  function VisitAll(c: Crawl, db: string, frontier: seq<string>, browser: Browser, parse: Parser): (p: Pass)
    ensures c.visits <= p.crawl.visits
    ensures forall n :: n != db ==> Open(p.crawl.files, n) == Open(c.files, n)
    decreases |frontier|
  {
    if frontier == [] then Pass(c, false)
    else
      var p := Visit(c, db, frontier[0], browser, parse);
      if p.raised then p else VisitAll(p.crawl, db, frontier[1..], browser, parse)
  }

  /** The visits that led from c to p are the planned URLs in order: all of
      them when nothing raised, else those up to and including the visit that
      raised. */
  predicate VisitedInOrder(c: Crawl, p: Pass, planned: seq<string>, browser: Browser, parse: Parser)
  {
    FollowsPlan(c, p, planned) && RaisedLast(c, p, browser, parse)
  }

  /** A pass that raised did so at its last visit. */
  predicate RaisedLast(c: Crawl, p: Pass, browser: Browser, parse: Parser)
    requires c.visits <= p.crawl.visits
  {
    var made := After(c.visits, p.crawl.visits);
    p.raised ==> made != [] && Fails(browser(made[|made| - 1], |p.crawl.visits| - 1), parse)
  }

  /** The loop visits the frontier in order, up to the first visit that
      raises. */
  lemma VisitAllOrder(c: Crawl, db: string, frontier: seq<string>, browser: Browser, parse: Parser)
    ensures VisitedInOrder(c, VisitAll(c, db, frontier, browser, parse), frontier, browser, parse)
  {
    VisitAllFollows(c, db, frontier, browser, parse);
    VisitAllRaisedLast(c, db, frontier, browser, parse);
  }

  lemma {:induction false} VisitAllFollows(c: Crawl, db: string, frontier: seq<string>, browser: Browser, parse: Parser)
    ensures FollowsPlan(c, VisitAll(c, db, frontier, browser, parse), frontier)
    decreases |frontier|
  {
    var p := VisitAll(c, db, frontier, browser, parse);
    if frontier != [] {
      var rest := frontier[1..];
      assert frontier == [frontier[0]] + rest;
      var q := Visit(c, db, frontier[0], browser, parse);
      if q.raised {
        assert p == q;
        assert After(c.visits, p.crawl.visits) == [frontier[0]];
      } else {
        VisitAllFollows(q.crawl, db, rest, browser, parse);
        assert p == VisitAll(q.crawl, db, rest, browser, parse);
        FollowsPlanStep(c, q.crawl, p, frontier[0], rest);
      }
    }
  }

  lemma {:induction false} VisitAllRaisedLast(c: Crawl, db: string, frontier: seq<string>, browser: Browser, parse: Parser)
    ensures RaisedLast(c, VisitAll(c, db, frontier, browser, parse), browser, parse)
    decreases |frontier|
  {
    var p := VisitAll(c, db, frontier, browser, parse);
    if frontier != [] {
      var q := Visit(c, db, frontier[0], browser, parse);
      if q.raised {
        assert p == q;
        assert After(c.visits, p.crawl.visits) == [frontier[0]];
        assert Fails(browser(frontier[0], |c.visits|), parse);
      } else {
        VisitAllRaisedLast(q.crawl, db, frontier[1..], browser, parse);
        assert p == VisitAll(q.crawl, db, frontier[1..], browser, parse);
        RaisedLastStep(c, q.crawl, p, browser, parse);
      }
    }
  }

  /** A pass that raised at its last visit after q also did so after any
      crawl q extends by one visit. */
  lemma RaisedLastStep(c: Crawl, q: Crawl, p: Pass, browser: Browser, parse: Parser)
    requires |q.visits| == |c.visits| + 1 && c.visits <= q.visits && q.visits <= p.crawl.visits
    requires RaisedLast(q, p, browser, parse)
    ensures RaisedLast(c, p, browser, parse)
  {
    if p.raised {
      var made := After(c.visits, p.crawl.visits);
      var later := After(q.visits, p.crawl.visits);
      assert made == made[..1] + later;
      assert made[|made| - 1] == later[|later| - 1];
    }
  }

  /** Every store file stays self-free along the loop. */
  lemma {:induction false} VisitAllKeepsSelfFree(c: Crawl, db: string, frontier: seq<string>, browser: Browser, parse: Parser)
    requires forall n :: SelfFree(Open(c.files, n))
    ensures forall n :: SelfFree(Open(VisitAll(c, db, frontier, browser, parse).crawl.files, n))
    decreases |frontier|
  {
    if frontier != [] {
      var q := Visit(c, db, frontier[0], browser, parse);
      VisitKeepsSelfFree(c, db, frontier[0], browser, parse);
      if !q.raised {
        VisitAllKeepsSelfFree(q.crawl, db, frontier[1..], browser, parse);
      }
    }
  }

  /** One iteration of process_profiles in crawler.py. Unlike crawler_ig.py,
      an error in the second load_not_visited_profiles is not caught, and no
      frontier entry is skipped. */
  function SeedRun(c: Crawl, seed: string, aux: Aux, browser: Browser, parse: Parser): Pass
  {
    SeedRunAt(c, ExtractProfileName(seed), seed, aux, browser, parse)
  }

  /** The same iteration, for the store file named db. */
  function SeedRunAt(c: Crawl, db: string, seed: string, aux: Aux, browser: Browser, parse: Parser): Pass
  {
    var first := LoadNotVisitedFb(Open(c.files, db), seed, aux);
    if first.Ok? then VisitAll(c, db, first.value, browser, parse)
    else
      var p := Visit(c, db, seed, browser, parse);
      if p.raised then p
      else
        var second := LoadNotVisitedFb(Open(p.crawl.files, db), seed, aux);
        if second.Raises? then Pass(p.crawl, true) else VisitAll(p.crawl, db, second.value, browser, parse)
  }

  /** A seed whose store file has tables: the visits follow the frontier
      loaded at the start. */
  lemma KnownSeedRun(c: Crawl, seed: string, aux: Aux, browser: Browser, parse: Parser)
    requires Open(c.files, ExtractProfileName(seed)).exist
    requires aux.hasAlter && aux.hasInteractions
    ensures var first := LoadNotVisitedFb(Open(c.files, ExtractProfileName(seed)), seed, aux);
      && first.Ok?
      && VisitedInOrder(c, SeedRun(c, seed, aux, browser, parse), first.value, browser, parse)
  {
    var db := ExtractProfileName(seed);
    VisitAllOrder(c, db, LoadNotVisitedFb(Open(c.files, db), seed, aux).value, browser, parse);
  }

  /** A seed whose store file has no tables yet is visited first. */
  lemma NewSeedFirst(c: Crawl, seed: string, aux: Aux, browser: Browser, parse: Parser)
    requires !Open(c.files, ExtractProfileName(seed)).exist
    ensures var p := SeedRun(c, seed, aux, browser, parse);
      c.visits <= p.crawl.visits && |p.crawl.visits| > |c.visits| && p.crawl.visits[|c.visits|] == seed
  {
    NewSeedFirstAt(c, ExtractProfileName(seed), seed, aux, browser, parse);
  }

  lemma NewSeedFirstAt(c: Crawl, db: string, seed: string, aux: Aux, browser: Browser, parse: Parser)
    requires !Open(c.files, db).exist
    ensures var p := SeedRunAt(c, db, seed, aux, browser, parse);
      c.visits <= p.crawl.visits && |p.crawl.visits| > |c.visits| && p.crawl.visits[|c.visits|] == seed
  {
    var q := Visit(c, db, seed, browser, parse);
    var p := SeedRunAt(c, db, seed, aux, browser, parse);
    if !q.raised {
      var second := LoadNotVisitedFb(Open(q.crawl.files, db), seed, aux);
      if second.Ok? {
        assert p == VisitAll(q.crawl, db, second.value, browser, parse);
      } else {
        assert p == Pass(q.crawl, true);
      }
    } else {
      assert p == q;
    }
  }


  /** If that first visit does not raise and both weight columns are there,
      the reload of the frontier succeeds and the visits that follow walk it
      in order. */
  lemma NewSeedRest(c: Crawl, seed: string, aux: Aux, browser: Browser, parse: Parser)
    requires !Open(c.files, ExtractProfileName(seed)).exist
    requires aux.hasAlter && aux.hasInteractions
    requires !Fails(browser(seed, |c.visits|), parse)
    ensures var db := ExtractProfileName(seed);
      var q := Visit(c, db, seed, browser, parse).crawl;
      var second := LoadNotVisitedFb(Open(q.files, db), seed, aux);
      && second.Ok?
      && VisitedInOrder(q, SeedRun(c, seed, aux, browser, parse), second.value, browser, parse)
  {
    var db := ExtractProfileName(seed);
    var q := Visit(c, db, seed, browser, parse);
    var second := LoadNotVisitedFb(Open(q.crawl.files, db), seed, aux);
    assert SeedRun(c, seed, aux, browser, parse) == VisitAll(q.crawl, db, second.value, browser, parse);
    VisitAllOrder(q.crawl, db, second.value, browser, parse);
  }

  /** With both weight columns and self-free store files, a seed is visited
      in its own iteration exactly when its store file had no tables. */
  lemma SeedVisitedIffNew(c: Crawl, seed: string, aux: Aux, browser: Browser, parse: Parser)
    requires aux.hasAlter && aux.hasInteractions
    requires forall n :: SelfFree(Open(c.files, n))
    ensures var p := SeedRun(c, seed, aux, browser, parse);
      && c.visits <= p.crawl.visits
      && (seed in After(c.visits, p.crawl.visits) <==> !Open(c.files, ExtractProfileName(seed)).exist)
  {
    var db := ExtractProfileName(seed);
    var p := SeedRun(c, seed, aux, browser, parse);
    if Open(c.files, db).exist {
      KnownSeedRun(c, seed, aux, browser, parse);
      assert SelfFree(Open(c.files, db));
      SeedNotInOwnFrontier(Open(c.files, db), seed, aux);
      PrefixMembers(After(c.visits, p.crawl.visits), LoadNotVisitedFb(Open(c.files, db), seed, aux).value);
    } else {
      NewSeedFirst(c, seed, aux, browser, parse);
      assert After(c.visits, p.crawl.visits)[0] == seed;
    }
  }

  /** process_profiles: the seeds in order, up to the first one whose
      iteration raises. */
  function ProfilesRun(c: Crawl, seeds: seq<string>, aux: Aux, browser: Browser, parse: Parser): Pass
    decreases |seeds|
  {
    if seeds == [] then Pass(c, false)
    else
      var p := SeedRun(c, seeds[0], aux, browser, parse);
      if p.raised then p else ProfilesRun(p.crawl, seeds[1..], aux, browser, parse)
  }

  /** process_profiles resumed at seed i. */
  lemma ProfilesRunStep(c: Crawl, seeds: seq<string>, i: int, aux: Aux, browser: Browser, parse: Parser, p: Pass)
    requires 0 <= i < |seeds|
    requires p == SeedRun(c, seeds[i], aux, browser, parse)
    ensures p.raised ==> ProfilesRun(c, seeds[i..], aux, browser, parse) == p
    ensures !p.raised ==> ProfilesRun(c, seeds[i..], aux, browser, parse) == ProfilesRun(p.crawl, seeds[i + 1..], aux, browser, parse)
  {
    assert seeds[i..][1..] == seeds[i + 1..];
  }

  /** Without both weight columns the iteration of any seed visits it (again,
      if it was visited before) and raises. */
  lemma MissingColumnSeedRun(c: Crawl, seed: string, aux: Aux, browser: Browser, parse: Parser)
    requires !aux.hasAlter || !aux.hasInteractions
    ensures var p := SeedRun(c, seed, aux, browser, parse);
      p.raised && p.crawl.visits == c.visits + [seed]
  {
    MissingColumnSeedRunAt(c, ExtractProfileName(seed), seed, aux, browser, parse);
  }

  lemma MissingColumnSeedRunAt(c: Crawl, db: string, seed: string, aux: Aux, browser: Browser, parse: Parser)
    requires !aux.hasAlter || !aux.hasInteractions
    ensures var p := SeedRunAt(c, db, seed, aux, browser, parse);
      p.raised && p.crawl.visits == c.visits + [seed]
  {
    var q := Visit(c, db, seed, browser, parse);
    if !q.raised {
      assert LoadNotVisitedFb(Open(q.crawl.files, db), seed, aux).Raises?;
    }
  }

  /** So every pass stops at its first seed, and every later pass does the
      same: the crawl never gets past it. */
  lemma MissingColumnStopsPass(c: Crawl, seeds: seq<string>, aux: Aux, browser: Browser, parse: Parser)
    requires seeds != []
    requires !aux.hasAlter || !aux.hasInteractions
    ensures var p := ProfilesRun(c, seeds, aux, browser, parse);
      p.raised && p.crawl.visits == c.visits + [seeds[0]]
  {
    MissingColumnSeedRun(c, seeds[0], aux, browser, parse);
  }

  /** The sleeps after blocks one to three of the `__main__` block. */
  const BlockDelays: seq<nat> := [100, 400, 800]

  /** The four blocks of the `__main__` block of crawler.py from block idx on
      (counting from 0). Each is a call of process_profiles, whatever the
      previous ones did; one of the first three that raises is followed by its
      sleep, and a fourth that raises ends the process with status 1. */
  function Blocks(c: Crawl, pass: Crawl -> Pass, idx: nat, attempts: seq<bool>, sleeps: seq<nat>): Run
    requires idx <= |BlockDelays|
    decreases |BlockDelays| - idx
  {
    var p := pass(c);
    if idx == |BlockDelays| then Run(p.crawl, attempts + [p.raised], sleeps, if p.raised then 1 else 0)
    else
      Blocks(p.crawl, pass, idx + 1, attempts + [p.raised],
             if p.raised then sleeps + [BlockDelays[idx]] else sleeps)
  }

  /** One call of process_profiles over the seed list, as a function of the
      crawl it starts from. */
  function PassOf(seeds: seq<string>, aux: Aux, browser: Browser, parse: Parser): Crawl -> Pass
  {
    c => ProfilesRun(c, seeds, aux, browser, parse)
  }

  /** The `__main__` block after the seed list is loaded. */
  function RunFb(c: Crawl, seeds: seq<string>, aux: Aux, browser: Browser, parse: Parser): Run
  {
    Blocks(c, PassOf(seeds, aux, browser, parse), 0, [], [])
  }

  /** The sleeps after the first blocks, given which of them raised. */
  function SleepsFor(raised: seq<bool>): seq<nat>
    requires |raised| <= |BlockDelays|
  {
    if raised == [] then []
    else
      var n := |raised| - 1;
      SleepsFor(raised[..n]) + (if raised[n] then [BlockDelays[n]] else [])
  }

  /** A sleep is the delay of one of the blocks it follows. */
  lemma {:induction false} SleepsForMembers(raised: seq<bool>)
    requires |raised| <= |BlockDelays|
    ensures forall x :: x in SleepsFor(raised) ==> x in BlockDelays[..|raised|]
  {
    if raised != [] {
      var n := |raised| - 1;
      SleepsForMembers(raised[..n]);
      assert BlockDelays[..n] <= BlockDelays[..n + 1];
      assert BlockDelays[n] in BlockDelays[..n + 1];
    }
  }

  predicate Ascending(s: seq<nat>)
  {
    forall i, j :: 0 <= i < j < |s| ==> s[i] < s[j]
  }

  /** The sleeps come in increasing order. */
  lemma {:induction false} SleepsForIncreasing(raised: seq<bool>)
    requires |raised| <= |BlockDelays|
    ensures Ascending(SleepsFor(raised))
  {
    if raised != [] {
      var n := |raised| - 1;
      var init := SleepsFor(raised[..n]);
      SleepsForIncreasing(raised[..n]);
      SleepsForMembers(raised[..n]);
      assert n == 0 || n == 1 || n == 2;
      assert forall x :: x in BlockDelays[..n] ==> x < BlockDelays[n];
      var r := SleepsFor(raised);
      assert r == init + (if raised[n] then [BlockDelays[n]] else []);
      forall i, j | 0 <= i < j < |r| ensures r[i] < r[j] {
        assert r[i] == init[i] && init[i] in init;
        if j < |init| {
          assert r[j] == init[j];
        } else {
          assert r[j] == BlockDelays[n];
          assert init[i] in BlockDelays[..n];
        }
      }
    }
  }

  /** A block's sleep is taken exactly when that block raised. */
  lemma {:induction false} SleepsForTaken(raised: seq<bool>)
    requires |raised| <= |BlockDelays|
    ensures forall i :: 0 <= i < |BlockDelays| ==> (BlockDelays[i] in SleepsFor(raised) <==> i < |raised| && raised[i])
  {
    if raised != [] {
      var n := |raised| - 1;
      var init := SleepsFor(raised[..n]);
      SleepsForTaken(raised[..n]);
      SleepsForMembers(raised[..n]);
      forall i | 0 <= i < |BlockDelays|
        ensures BlockDelays[i] in SleepsFor(raised) <==> i < |raised| && raised[i]
      {
        if i == n {
          assert BlockDelays[n] !in BlockDelays[..n];
        } else {
          assert BlockDelays[i] != BlockDelays[n];
          if i < n { assert raised[..n][i] == raised[i]; }
        }
      }
    }
  }

  lemma {:induction false} BlocksFrom(c: Crawl, pass: Crawl -> Pass, idx: nat, attempts: seq<bool>, sleeps: seq<nat>)
    requires idx <= |BlockDelays| && |attempts| == idx && sleeps == SleepsFor(attempts)
    ensures var r := Blocks(c, pass, idx, attempts, sleeps);
      && |r.attempts| == |BlockDelays| + 1
      && r.sleeps == SleepsFor(r.attempts[..|BlockDelays|])
      && (r.exitStatus == 1 <==> r.attempts[|BlockDelays|])
      && (r.exitStatus == 0 || r.exitStatus == 1)
    decreases |BlockDelays| - idx
  {
    var p := pass(c);
    if idx < |BlockDelays| {
      var next := attempts + [p.raised];
      assert next[..idx] == attempts;
      BlocksFrom(p.crawl, pass, idx + 1, next, if p.raised then sleeps + [BlockDelays[idx]] else sleeps);
    } else {
      assert (attempts + [p.raised])[..|BlockDelays|] == attempts;
    }
  }

  /** Four passes always run, even after one that succeeded; the process
      sleeps after each of the first three that raised, in block order, and
      exits with status 1 exactly when the fourth raised. */
  lemma RunShape(c: Crawl, seeds: seq<string>, aux: Aux, browser: Browser, parse: Parser)
    ensures var r := RunFb(c, seeds, aux, browser, parse);
      && |r.attempts| == 4
      && (r.exitStatus == 1 <==> r.attempts[3])
      && (r.exitStatus == 0 || r.exitStatus == 1)
      && (forall i :: 0 <= i < 3 ==> (BlockDelays[i] in r.sleeps <==> r.attempts[i]))
      && (forall i, j :: 0 <= i < j < |r.sleeps| ==> r.sleeps[i] < r.sleeps[j])
  {
    var r := RunFb(c, seeds, aux, browser, parse);
    BlocksFrom(c, PassOf(seeds, aux, browser, parse), 0, [], []);
    SleepsForTaken(r.attempts[..3]);
    SleepsForIncreasing(r.attempts[..3]);
  }

  /** visit_and_extract on the crawler's state. */
  method VisitAndExtract(w: Workspace, db: string, url: string, browser: Browser, parse: Parser) returns (raised: bool)
    modifies w
    ensures Pass(w.State(), raised) == Visit(old(w.State()), db, url, browser, parse)
  {
    var fetched := browser(url, |w.visits|);
    w.visits := w.visits + [url];
    match fetched
    case FetchRaised =>
      raised := true;
    case Hidden =>
      w.SaveToDuckdb(db, url, [], -1, "");
      raised := false;
    case Visible(friends, text) =>
      var count := parse(text);
      if count.Raises? || count.value < 0 {
        return true;
      }
      w.SaveToDuckdb(db, url, ExcludeSelf(friends, url), count.value, "");
      raised := false;
  }

  /** The loop over the frontier in process_profiles. */
  method VisitFrontier(w: Workspace, db: string, frontier: seq<string>, browser: Browser, parse: Parser) returns (raised: bool)
    modifies w
    ensures Pass(w.State(), raised) == VisitAll(old(w.State()), db, frontier, browser, parse)
  {
    ghost var goal := VisitAll(w.State(), db, frontier, browser, parse);
    raised := false;
    for i := 0 to |frontier|
      invariant VisitAll(w.State(), db, frontier[i..], browser, parse) == goal
    {
      assert frontier[i..][1..] == frontier[i + 1..];
      raised := VisitAndExtract(w, db, frontier[i], browser, parse);
      if raised {
        return;
      }
    }
  }

  /** The body of process_profiles for one seed. */
  method ProcessSeed(w: Workspace, seed: string, aux: Aux, browser: Browser, parse: Parser) returns (raised: bool)
    modifies w
    ensures Pass(w.State(), raised) == SeedRun(old(w.State()), seed, aux, browser, parse)
  {
    ghost var c := w.State();
    var db := ExtractProfileName(seed);
    var notVisited := LoadNotVisitedFb(Open(w.files, db), seed, aux);
    if notVisited.Raises? {
      raised := VisitAndExtract(w, db, seed, browser, parse);
      if raised {
        return;
      }
      ghost var q := w.State();
      assert q == Visit(c, db, seed, browser, parse).crawl;
      notVisited := LoadNotVisitedFb(Open(w.files, db), seed, aux);
      if notVisited.Raises? {
        return true;
      }
      assert SeedRun(c, seed, aux, browser, parse) == VisitAll(q, db, notVisited.value, browser, parse);
    } else {
      assert SeedRun(c, seed, aux, browser, parse) == VisitAll(c, db, notVisited.value, browser, parse);
    }
    raised := VisitFrontier(w, db, notVisited.value, browser, parse);
  }

  /** process_profiles(profile_urls, df_interactions). */
  method ProcessProfiles(w: Workspace, seeds: seq<string>, aux: Aux, browser: Browser, parse: Parser) returns (raised: bool)
    modifies w
    ensures Pass(w.State(), raised) == ProfilesRun(old(w.State()), seeds, aux, browser, parse)
  {
    ghost var goal := ProfilesRun(w.State(), seeds, aux, browser, parse);
    raised := false;
    for i := 0 to |seeds|
      invariant ProfilesRun(w.State(), seeds[i..], aux, browser, parse) == goal
    {
      ghost var c := w.State();
      raised := ProcessSeed(w, seeds[i], aux, browser, parse);
      ProfilesRunStep(c, seeds, i, aux, browser, parse, Pass(w.State(), raised));
      if raised {
        return;
      }
    }
  }

  /** The four blocks of the `__main__` block: three that sleep when
      process_profiles raises, then one that exits with status 1 when it
      does. It returns the exit status, the outcome of each block and the
      sleeps. */
  method CrawlInFourBlocks(w: Workspace, seeds: seq<string>, aux: Aux, browser: Browser, parse: Parser)
    returns (exitStatus: int, attempts: seq<bool>, sleeps: seq<nat>)
    modifies w
    ensures Run(w.State(), attempts, sleeps, exitStatus) == RunFb(old(w.State()), seeds, aux, browser, parse)
  {
    ghost var goal := RunFb(w.State(), seeds, aux, browser, parse);
    attempts, sleeps := [], [];
    for idx := 0 to |BlockDelays|
      invariant Blocks(w.State(), PassOf(seeds, aux, browser, parse), idx, attempts, sleeps) == goal
    {
      ghost var before := w.State();
      var raised := ProcessProfiles(w, seeds, aux, browser, parse);
      assert PassOf(seeds, aux, browser, parse)(before) == Pass(w.State(), raised);
      attempts := attempts + [raised];
      if raised {
        sleeps := sleeps + [BlockDelays[idx]];
      }
    }
    ghost var before := w.State();
    var raised := ProcessProfiles(w, seeds, aux, browser, parse);
    assert PassOf(seeds, aux, browser, parse)(before) == Pass(w.State(), raised);
    attempts := attempts + [raised];
    exitStatus := if raised then 1 else 0;
  }

  /** crawler.py's `__main__` block, with its own count parser. */
  method CrawlFacebook(w: Workspace, seeds: seq<string>, aux: Aux, browser: Browser)
    returns (exitStatus: int, attempts: seq<bool>, sleeps: seq<nat>)
    modifies w
    ensures Run(w.State(), attempts, sleeps, exitStatus) == RunFb(old(w.State()), seeds, aux, browser, ParseNumberOfFriends)
  {
    exitStatus, attempts, sleeps := CrawlInFourBlocks(w, seeds, aux, browser, ParseNumberOfFriends);
  }
}
