/** What the two crawlers' drivers have in common: the outcome of running a
    piece of a pass over the store, and the order in which a frontier is
    walked. */
module Passes {
  import opened Store

  /** The crawl after some visits, and whether an exception escaped them. */
  datatype Pass = Pass(crawl: Crawl, raised: bool)

  /** What the `__main__` block of a crawler leaves behind: the crawl, one
      entry per call of process_profiles telling whether it raised, the
      seconds it slept between calls, and the status the process exits with. */
  datatype Run = Run(crawl: Crawl, attempts: seq<bool>, sleeps: seq<nat>, exitStatus: int)

  /** A frontier with every entry equal to the seed removed, order and
      repeats kept. */
  function Without(frontier: seq<string>, seed: string): (r: seq<string>)
    ensures |r| <= |frontier|
    ensures forall x :: x in r <==> x in frontier && x != seed
  {
    if frontier == [] then []
    else (if frontier[0] == seed then [] else [frontier[0]]) + Without(frontier[1..], seed)
  }

  /** What a sequence holds after one of its prefixes. */
  function After(prefix: seq<string>, s: seq<string>): (r: seq<string>)
    requires prefix <= s
    ensures prefix + r == s
  {
    s[|prefix|..]
  }

  /** What follows a prefix is its next element, then what follows the
      longer prefix. */
  lemma AfterStep(prefix: seq<string>, x: string, s: seq<string>)
    requires prefix + [x] <= s
    ensures prefix <= s && After(prefix, s) == [x] + After(prefix + [x], s)
  {
    assert s[|prefix|] == x;
  }

  /** What follows a prefix is what follows it up to a longer prefix, then
      what follows that one. */
  lemma AfterSplit(a: seq<string>, b: seq<string>, s: seq<string>)
    requires a <= b && b <= s
    ensures After(a, s) == After(a, b) + After(b, s)
  {
  }

  /** The visits that led from c to p are the planned URLs in order: all of
      them when nothing raised, else a prefix of them. */
  predicate FollowsPlan(c: Crawl, p: Pass, planned: seq<string>)
  {
    && c.visits <= p.crawl.visits
    && After(c.visits, p.crawl.visits) <= planned
    && (!p.raised ==> After(c.visits, p.crawl.visits) == planned)
  }

  /** Everything in a prefix is in the sequence. */
  lemma PrefixMembers(a: seq<string>, b: seq<string>)
    requires a <= b
    ensures forall x :: x in a ==> x in b
  {
    forall x | x in a ensures x in b {
      var i :| 0 <= i < |a| && a[i] == x;
      assert b[i] == x;
    }
  }

  /** A pass that followed a plan after one more visit follows the plan
      that starts with that visit. */
  lemma FollowsPlanStep(c: Crawl, q: Crawl, p: Pass, url: string, planned: seq<string>)
    requires q.visits == c.visits + [url]
    requires FollowsPlan(q, p, planned)
    ensures FollowsPlan(c, p, [url] + planned)
  {
    var made := After(c.visits, p.crawl.visits);
    var later := After(q.visits, p.crawl.visits);
    assert c.visits + ([url] + later) == p.crawl.visits;
    assert made == [url] + later;
  }
}
