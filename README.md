# Crawl frontier and graph store of the Instagram and Facebook crawlers

The project models the engine shared by the two crawlers. `crawler_ig.py` is
the Instagram follower crawler. `crawler.py` is its older Facebook twin.
Starting from a list of seed profiles, each crawler:

- visits every seed that has no store yet;
- stores the accounts the seed follows (its "friends") in the seed's own
  DuckDB file;
- picks the next profiles to visit from those edges, ranked by an optional
  interaction-weight table;
- visits them in order;
- repeats whole passes when a pass raises.

The modules, one per file:

| module | file | what it models |
|---|---|---|
| `Outcome` | `outcome.dfy` | `Option`, `Result` and the exceptions the callers tell apart: missing table, missing column, `ValueError` |
| `Text` | `text.dfy` | The Python string operations the code relies on: `strip`, `lstrip`, `split(c)[0]`, `replace`, `re.sub(r'\D', '', s)`, `in` |
| `Urls` | `urls.dfy` | The scheme/netloc/path/query split of `urlparse`, after its cleaning of the URL: leading C0 controls and spaces stripped, every tab, carriage return and line feed deleted |
| `StringOrder` | `string_order.dfy` | Python's order on `str`, `sorted(set(xs))` and `sorted(xs)` |
| `IgNames` | `ig_names.dfy` | `normalize_profile_url`, `extract_profile_name`, `extract_username`, `load_profiles_from_csv` of `crawler_ig.py` |
| `IgCounts` | `ig_counts.dfy` | `parse_compact_number` |
| `FbNames` | `fb_names.dfy` | `extract_profile_name`, `load_profiles_from_csv`, `parse_number_of_friends` of `crawler.py`, and the self-exclusion filter of its `visit_and_extract` |
| `Store` | `store.dfy` | The two append-only tables of a store file, and the class `Workspace` holding every store file of a run plus the log of visits; `save_to_duckdb` is its method |
| `Frontier` | `frontier.dfy` | Both versions of `load_not_visited_profiles` |
| `Passes` | `passes.dfy` | What a pass of either crawler produces, and "visits follow the plan" |
| `IgCrawl` | `ig_crawl.dfy` | `visit_and_extract` (fetch, then save), `process_profiles` and the retry loop of `crawler_ig.py` |
| `FbCrawl` | `fb_crawl.dfy` | The same for `crawler.py`, with its four hard-coded blocks |

**The browser.** It is a function parameter. Given the URL and the number of
visits made so far, it returns what the page gave up, or that it raised.

**The store.** A map from store-file name to `Tables`:

- a flag saying the tables were created;
- the `friendships` rows;
- the `profile_doms` rows.

The orchestrators are methods on a `Workspace`. Each method is proved equal to
a function:

- `Visit`;
- `VisitAll`;
- `SeedRun`;
- `ProfilesRun`;
- `RunIg` / `RunFb`.

The properties of a crawl are lemmas about those functions.

**Row orders.** `SELECT DISTINCT` and pandas' `sort_values` give no fixed row
order, so the selectors `Frontier.SelectIg` and `Frontier.SelectFb` take both
orders as inputs. Every selector lemma holds for every *admissible* order, as
defined by `Frontier.Admissible`. The orchestrators fix one admissible choice,
and `Frontier.FixedOrdersAdmissible` proves that choice admissible:

- first occurrence in table order;
- a stable descending sort.

**Behaviours of the code worth knowing.** The model states each of them:

- **Raising fetch.** An exception from the browser escapes `visit_and_extract` and ends the whole pass (`IgCrawl.VisitAllOrder`, `FbCrawl.VisitAllOrder`). Only the retry loop goes on: in `crawler_ig.py` that is 4 passes at most; in `crawler.py` it is always 4 blocks.
- **Negative friend count.** In `crawler.py` a count such as "-3" parses, and then `time.sleep(n_friends/5)` raises `ValueError` before the save (`FbCrawl.Visit`, `FbCrawl.NegativeCountRaises`).
- **Ties in weight.** The order of rows with equal weight is unspecified; every selector lemma holds for every tie order.
- **No ranked fallback.** When no recorded name appears in the weight table, the ranked path returns `[]` and does not fall back (`Frontier.NoOverlap`).
- **Fallback keeps visited profiles.**
  - The `crawler_ig.py` fallback does not remove visited profiles (`Frontier.FallbackKeepsVisited`).
  - So at-most-once visiting does not hold globally. A URL can also appear twice in one frontier (`Frontier.DuplicateAlter`, `IgCrawl.RepeatedEntryVisitedTwice`).
  - On the ranked path, no seed's iteration visits a profile that had a `profile_doms` row when its seed's frontier was loaded (`IgCrawl.RankedRunSkipsVisited`, `IgCrawl.RankedNewSeedSkipsVisited`), and a whole pass visits only profiles unvisited in the store of some seed when the pass began (`IgCrawl.RankedPassSkipsVisited`).
- **Store names can collide.** Store files are named by `extract_profile_name`, so two seeds whose names collide share one store.
- **Self-loop guard.** `crawler.py` has no self-loop guard, but its self-exclusion filter keeps every store file it writes free of self-edges (`FbCrawl.VisitKeepsSelfFree`). So the seed never reaches its own frontier (`FbCrawl.SeedNotInOwnFrontier`).
- **Missing weight columns.** In `crawler.py`, a weight table without both columns makes every load raise. So every pass stops at its first seed after visiting it again (`FbCrawl.MissingColumnStopsPass`).

## Model

| member | source | states |
|---|---|---|
| `StringOrder.SortedDistinct` | crawler_ig.py:86 | `sorted(set(xs))` is strictly increasing and holds exactly the elements of `xs` |
| `StringOrder.Sorted` | crawler.py:85 | `sorted(xs)` is non-decreasing and a permutation of `xs`: same multiset, duplicates kept |
| `IgNames.NormalizeProfileUrl` | crawler_ig.py:44-58 | A non-empty key starts with "http", ends with '/' and contains no '?' |
| `IgNames.NormalizeBlank` | crawler_ig.py:45-49 | The key is "" exactly when the input is empty or whitespace only |
| `IgNames.NormalizeIdempotent` | crawler_ig.py:44-58 | Normalising a key again gives the same key |
| `IgNames.AsUrl` | crawler_ig.py:50-54 | Text that is not already a URL becomes one under the base URL: the result starts with "http" |
| `IgNames.CutQuery` | crawler_ig.py:55 | Cutting at the first '?' keeps the "http" prefix and leaves no '?' |
| `IgNames.WithTrailingSlash` | crawler_ig.py:56-57 | The result ends with '/' and keeps the prefix and the absence of '?' |
| `IgNames.Identifier` | crawler_ig.py:62-65 | The unsanitised name is never empty: path, else host, else "profile", plus "_query" |
| `IgNames.ExtractProfileName` | crawler_ig.py:61-67 | The store name is non-empty and made only of `[A-Za-z0-9._-]`, so the final `or "profile"` never applies |
| `IgNames.ExtractUsername` | crawler_ig.py:70-73 | The username has no '/', is a prefix of the path stripped of slashes, and is empty exactly when that path is |
| `Urls.UrlParse` | crawler_ig.py:62 | No part holds a tab, a carriage return or a line feed; the path and the network location hold no '?' or '#', and the network location no '/' |
| `Urls.UnsafeIgnored` | crawler_ig.py:62 | A tab, carriage return or line feed after the first character of a URL changes nothing `urlparse` returns |
| `IgNames.NamesIgnoreUnsafe` | crawler_ig.py:61-73 | So the store name and the username of ".../a\tb/" are those of ".../ab/" |
| `IgNames.SeedCellsMembers` | crawler_ig.py:80-85 | A collected URL is exactly a non-empty normalised first cell of some non-empty row |
| `IgNames.LoadProfilesFromCsv` | crawler_ig.py:76-86 | The seed list is strictly increasing, so free of duplicates, and holds exactly the non-empty normalised first cells |
| `IgCounts.MatchCompact` | crawler_ig.py:16 | A match captures a non-empty number part made only of digits, '.', ',' and whitespace |
| `IgCounts.ParseCompactNumber` | crawler_ig.py:19-41 | The count is never negative, and empty text gives 0 |
| `IgCounts.CountWithoutSuffix` | crawler_ig.py:24-39 | With no K/M/B captured, the count is the number spelled by all the decimal digits of the text: "1,234" and "1.234" give 1234, no digits give 0 |
| `IgCounts.NumberWithoutSuffix` | crawler_ig.py:34-39 | Without a suffix, both the `float` path and its `except` branch read the number part's digits as a whole number |
| `IgCounts.CountWithSuffix` | crawler_ig.py:28-41 | Digits followed by K, M or B (either case) give the number times 1,000, 1,000,000 or 1,000,000,000 |
| `IgCounts.CountWithDecimalSuffix` | crawler_ig.py:28-41 | "whole.fraction" plus a suffix gives the exact product truncated: "3.4M" gives 3400000 |
| `FbNames.ExtractProfileName` | crawler.py:87-90 | The name never starts with '/' and contains '?' exactly when the URL has a query |
| `FbNames.NameIgnoresUnsafe` | crawler.py:87-90 | The store name of a URL with a tab, carriage return or line feed inside is that of the URL without it |
| `FbNames.CellsMembers` | crawler.py:80-84 | A collected cell is exactly the converted first cell of some non-empty row |
| `FbNames.FirstCellsMembers` | crawler.py:80-84 | A seed is exactly the stripped first cell of some non-empty row; empty strings are not dropped |
| `FbNames.LoadProfilesFromCsv` | crawler.py:78-85 | The seed list is a non-decreasing permutation of the stripped first cells, duplicates and empty strings kept |
| `FbNames.ParseNumberOfFriends` | crawler.py:92-97 | The only error it raises is `ValueError` |
| `FbNames.ParseToken` | crawler.py:94-97 | The only error parsing the stripped, upper-cased token raises is `ValueError` |
| `FbNames.FirstTokenOnly` | crawler.py:93 | Only the first space-separated token is read: what follows the first space changes nothing |
| `FbNames.PlainCount` | crawler.py:97 | A token of decimal digits gives the integer it spells |
| `FbNames.ThousandsCount` | crawler.py:95-96 | Digits followed by K or k give that number times 1000 |
| `FbNames.SeparatorRaises` | crawler.py:92-97 | A first token holding a ',' (such as "1,234") raises `ValueError` |
| `FbNames.CommaTokenRaises` | crawler.py:95-97 | A token holding a comma is refused by both the K branch and the `int` branch |
| `FbNames.NoIntWithComma` | crawler.py:97 | `int()` refuses text holding a comma |
| `FbNames.NoNumberWithComma` | crawler.py:96 | `float()` refuses text holding a comma |
| `FbNames.ExcludeSelf` | crawler.py:207 | A friend is kept exactly when it was in the list and its URL does not contain the profile URL |
| `FbNames.ExcludeSelfConcat` | crawler.py:207 | The filter keeps the original order: it distributes over concatenation |
| `FbNames.ExcludeSelfDropsProfile` | crawler.py:207 | No kept friend has the profile's own URL |
| `Store.EdgeRows` | crawler_ig.py:217-221 | One friendships row per followed account, `(profile, url, name)`, at the same position |
| `Store.EdgeRowsConcat` | crawler_ig.py:217-221 | The rows of a concatenated list are the rows of each part, in order |
| `Store.SaveAppends` | crawler_ig.py:196-227 | A save creates the tables and keeps every earlier row where it was. It appends one friendships row per followed account, in order, and exactly one profile_doms row `(profile, n_friends, dom)` |
| `Store.SaveMarksVisited` | crawler_ig.py:222-225 | After a save, the visited set (`SELECT DISTINCT profile FROM profile_doms`) is the old one plus the saved profile, and nothing else |
| `Store.Recorded` | crawler_ig.py:233-240 | A (name, friend) pair is recorded for a profile exactly when a friendships row `(profile, friend, name)` exists |
| `Store.Pairs` | crawler_ig.py:217-221 | Entry i of a following list is recorded as the pair (name, url) of entry i |
| `Store.RecordedConcat` | crawler_ig.py:233-240 | The pairs recorded in two runs of rows are those of each run, in order |
| `Store.RecordedEdgeRows` | crawler_ig.py:217-221 | A save records the list's pairs, in order, for the saved profile and nothing for any other |
| `Store.SaveRecords` | crawler_ig.py:217-240 | A save appends the followed accounts' pairs to what is recorded for the saved profile, and leaves every other profile's pairs unchanged |
| `Store.Workspace.SaveToDuckdb` | crawler_ig.py:196-227 | The named store file becomes the file after the save, and no other file and no visit changes. crawler.py:141-167 does the same |
| `Store.Workspace.InsertFriendship` | crawler_ig.py:218-221 | One INSERT appends one friendships row to the named file and changes nothing else |
| `Store.Workspace.InsertProfileDom` | crawler_ig.py:222-225 | One INSERT appends one profile_doms row to the named file and changes nothing else |
| `Frontier.Collapse` | crawler_ig.py:244 | `dict(friends)`: every key maps to a friend it was paired with, and every pair's name is a key |
| `Frontier.CollapseLast` | crawler_ig.py:244 | A later pair with the same name overwrites an earlier one: a name maps to the friend of its last pair |
| `Frontier.FinalFriends` | crawler_ig.py:253 | The listed friends are exactly the values of the name map |
| `Frontier.Filtered` | crawler_ig.py:255-256 | A (name, weight) row is kept exactly when the name is a key of the name map and the table lists that name with that coerced weight |
| `Frontier.FilteredConcat` | crawler_ig.py:255-256 | The filter keeps table order: it distributes over concatenation |
| `Frontier.NotVisited` | crawler_ig.py:271-272 | An entry is kept exactly when it is in the input and its friend is not in the visited set; the result is never longer |
| `Frontier.NotVisitedConcat` | crawler_ig.py:272 | The visited filter keeps order: it distributes over concatenation |
| `Frontier.CandidatesMembers` | crawler_ig.py:258 | A (friend, weight) entry is a candidate exactly when the name map gives that friend for a name the top rows list with that weight |
| `Frontier.FriendsMembers` | crawler_ig.py:258-272 | A friend is listed exactly when some kept entry names it |
| `Frontier.CandidatesNonIncreasing` | crawler_ig.py:258 | Mapping the ranked names to friends keeps weights non-increasing |
| `Frontier.NotVisitedNonIncreasing` | crawler_ig.py:272 | Removing visited profiles keeps weights non-increasing |
| `Frontier.ShortlistSource` | crawler_ig.py:255-272 | Each kept friend is unvisited and comes from a name the weight table lists with that weight |
| `Frontier.ShortlistNonIncreasing` | crawler_ig.py:257-272 | The kept friends are in non-increasing weight order, and there are at most 50 of them |
| `Frontier.SelectIg` | crawler_ig.py:230-272 | The selector raises exactly when the store file has no tables, and then with the missing-table error |
| `Frontier.SelectFb` | crawler.py:34-76 | The selector raises exactly when the tables or a weight column are missing. With the tables present, the error is the missing-column one |
| `Frontier.NoEdgesIg` | crawler_ig.py:244-246 | A profile with no recorded edges gets `[]`, whatever the weight table |
| `Frontier.FallbackIg` | crawler_ig.py:248-253 | With no usable weight table, the result is strictly increasing. It is exactly the friends of the name map, each a recorded friend of the profile |
| `Frontier.FallbackKeepsVisited` | crawler_ig.py:253 | The fallback returns a friend that already has a profile_doms row: visited profiles are not removed |
| `Frontier.JustifiedIsGrounded` | crawler_ig.py:244-258 | A friend the name map gives for a weighted name is recorded for the profile under that name |
| `Frontier.RankedGrounded` | crawler_ig.py:255-272 | For every admissible row order, the ranked path returns at most 50 unvisited friends. Each is recorded for the profile under a name the table weighs, in non-increasing weight order |
| `Frontier.ShortlistGrounded` | crawler_ig.py:255-272 | Every kept friend is unvisited and recorded for the profile under a weighted name |
| `Frontier.ShapeOf` | crawler_ig.py:258-272 | Non-increasing, grounded, unvisited friends of at most 50 entries give a result of that shape |
| `Frontier.RankedMembers` | crawler_ig.py:255-272 | The ranked path lists exactly the friends, without a profile_doms row, that the name map gives for the 50 heaviest rows |
| `Frontier.WholeRanking` | crawler_ig.py:257 | `.head(50)` of a ranking of at most 50 rows keeps all of them |
| `Frontier.NamedIffJustified` | crawler_ig.py:255-258 | When nothing is cut, a friend is named by the top rows exactly when the table weighs a name the map gives it for |
| `Frontier.RankedComplete` | crawler_ig.py:255-272 | When at most 50 rows match, the ranked path lists exactly the unvisited friends of weighted names, whatever order was chosen |
| `Frontier.RankedIg` | crawler_ig.py:255-272 | With tables and both columns, `crawler_ig.py`'s selector succeeds, its result has that shape, it lists exactly the unvisited friends of the 50 heaviest rows, and every unvisited friend of a weighted name when at most 50 rows match |
| `Frontier.RankedFb` | crawler.py:46-76 | With tables and both columns, `crawler.py`'s selector succeeds, and its result has the same shape and the same members |
| `Frontier.HeavierFirst` | crawler_ig.py:244-272 | Two unvisited friends recorded under two names weighted differently (Bob 10, Ann 5) come out as exactly those two, heavier first, from both selectors and for every admissible order |
| `Frontier.NoOverlap` | crawler_ig.py:255-258 | When no recorded name is in the weight table, both selectors return `[]`: no fallback |
| `Frontier.MissingColumnFb` | crawler.py:52-55 | `crawler.py`'s selector raises the missing-column error when a column is missing, edges or not |
| `Frontier.DuplicateAlter` | crawler_ig.py:255-258 | Two weight rows for one name put the same URL in the frontier twice, in both versions |
| `Frontier.ExactInputsAdmissible` | crawler_ig.py:233-257 | The recorded pairs themselves (distinct) and the filtered rows themselves (sorted) are an admissible pair of orders |
| `Frontier.Dedup` | crawler_ig.py:233-240 | `SELECT DISTINCT` as first occurrences: distinct, with exactly the input's pairs |
| `Frontier.RankDescending` | crawler_ig.py:257 | The sort is a permutation of its input in non-increasing weight order |
| `Frontier.FixedOrdersAdmissible` | crawler_ig.py:233-257 | The orders the crawl fixes are among those DuckDB and pandas may produce |
| `Passes.Without` | crawler_ig.py:361-363 | The walked frontier holds exactly the entries other than the seed, and is no longer |
| `IgCrawl.Visit` | crawler_ig.py:275-332 | A visit is logged. It raises exactly when the browser raised, and it touches no store file but its own |
| `IgCrawl.VisitSaves` | crawler_ig.py:321-331 | A visit that returned (page errors included) marks the profile visited and records its following list after the earlier edges |
| `IgCrawl.VisitAll` | crawler_ig.py:361-364 | The frontier loop only adds visits and touches no other store file |
| `IgCrawl.VisitAllOrder` | crawler_ig.py:361-364 | The loop visits the frontier minus the seed, in order. It covers all of it unless a visit raised, and then stops at that visit |
| `IgCrawl.KnownSeedRun` | crawler_ig.py:345-347 | A seed with a store loads its frontier once and walks it in order, without visiting the seed |
| `IgCrawl.NewSeedFirst` | crawler_ig.py:348-355 | A seed without a store is the first profile its iteration visits |
| `IgCrawl.NewSeedRest` | crawler_ig.py:355-364 | After a seed visit that returned, the second load always succeeds (its `except` is never taken), and its frontier is walked in order |
| `IgCrawl.SeedVisitedIffNew` | crawler_ig.py:345-364 | The seed is visited in its iteration exactly when its store had no tables |
| `IgCrawl.RankedRunSkipsVisited` | crawler_ig.py:342-364 | On the ranked path, a known seed's iteration makes at most 50 visits. None is to the seed, and none to a profile that had a profile_doms row when the frontier was loaded |
| `IgCrawl.RankedNewSeedSkipsVisited` | crawler_ig.py:348-364 | On the ranked path, after a new seed's own visit, its iteration makes at most 50 more visits. None is to the seed, and none to a profile with a profile_doms row right after the seed's visit, when the frontier was loaded |
| `IgCrawl.VisitGrows` | crawler_ig.py:275-332 | A visit only appends rows to store files: no file loses its tables or a row |
| `IgCrawl.SeedRunGrows` | crawler_ig.py:343-364 | So does a seed's whole iteration |
| `IgCrawl.RankedSeedRun` | crawler_ig.py:343-364 | On the ranked path, every visit of a seed's iteration is the seed itself, when its store had no tables, or another profile with no profile_doms row in the seed's store at the start |
| `IgCrawl.RankedPassSkipsVisited` | crawler_ig.py:335-364 | On the ranked path, every visit of a pass is, for some seed, that seed when its store had no tables, or a profile other than that seed with no profile_doms row in its store, the store taken as it was when the pass began |
| `IgCrawl.RepeatedEntryVisitedTwice` | crawler_ig.py:361-364 | A URL listed twice in a frontier is visited twice |
| `IgCrawl.RetryFrom` | crawler_ig.py:392-404 | Resumed at any attempt after failures only, the loop ends in the shape below |
| `IgCrawl.RunShape` | crawler_ig.py:390-404 | One to four attempts are made, and every one but the last raised. The status is 1 exactly when the last raised, and then all four did. The sleeps are 100 then 400 only: never the 0, never the 800 |
| `IgCrawl.FirstPassSucceeds` | crawler_ig.py:394-397 | A first pass that does not raise is the only pass, with status 0 and no sleep |
| `IgCrawl.VisitAndExtract` | crawler_ig.py:275-332 | The method's new state and result are those of `Visit` |
| `IgCrawl.VisitFrontier` | crawler_ig.py:361-364 | The loop's new state and result are those of `VisitAll` |
| `IgCrawl.ProcessSeed` | crawler_ig.py:343-364 | One seed's iteration ends in the state `SeedRun` gives |
| `IgCrawl.ProcessProfiles` | crawler_ig.py:335-364 | The loop over the seeds ends in the state `ProfilesRun` gives |
| `IgCrawl.CrawlWithRetries` | crawler_ig.py:390-404 | The retry loop's state, attempts, sleeps and exit status are those of `RunIg` |
| `FbCrawl.Visit` | crawler.py:170-213 | A visit is logged. It raises exactly when the browser raised, or the count does not parse or parses to a negative number (the sleep of `zoom_out_load_friends` refuses it), and then nothing is saved. Otherwise the tables exist, and only its own store file changes |
| `FbCrawl.HiddenSaves` | crawler.py:192-212 | A hidden friend list marks the profile visited with count -1 and records no friend |
| `FbCrawl.VisibleSaves` | crawler.py:200-212 | A visible list with a count that is not negative marks the profile visited with the parsed count and records, in order, the friends whose URL does not contain the profile URL |
| `FbCrawl.NegativeCountRaises` | crawler.py:110-112 | A visible list whose count reads "-" and a positive number raises: the visit is logged and no store file changes |
| `FbNames.NegativeCount` | crawler.py:92-97 | "-" followed by digits parses to the negative number they spell |
| `FbCrawl.VisitKeepsSelfFree` | crawler.py:207 | Every store file stays free of friends whose URL contains their profile's URL |
| `FbCrawl.SeedNotInOwnFrontier` | crawler.py:233-234 | In such a store, the seed is never in its own frontier, so the missing self-loop guard changes nothing |
| `FbCrawl.VisitAll` | crawler.py:233-234 | The frontier loop only adds visits and touches no other store file |
| `FbCrawl.VisitAllOrder` | crawler.py:233-234 | The loop visits every entry in order, the seed included, until a visit raises; that visit is the last |
| `FbCrawl.VisitAllFollows` | crawler.py:233-234 | The visits made are the frontier, or a prefix of it when the loop raised |
| `FbCrawl.VisitAllRaisedLast` | crawler.py:233-234 | A loop that raised did so at its last visit |
| `FbCrawl.VisitAllKeepsSelfFree` | crawler.py:233-234 | The loop keeps every store file self-free |
| `FbCrawl.KnownSeedRun` | crawler.py:220-222 | With both columns, a seed with a store walks its frontier in order without being visited |
| `FbCrawl.NewSeedFirst` | crawler.py:223-230 | A seed whose first load raised is the first profile its iteration visits |
| `FbCrawl.NewSeedRest` | crawler.py:229-234 | With both columns, after a seed visit that succeeded the second load succeeds and its frontier is walked in order |
| `FbCrawl.SeedVisitedIffNew` | crawler.py:217-234 | With both columns and self-free stores, the seed is visited in its iteration exactly when its store had no tables |
| `FbCrawl.MissingColumnSeedRun` | crawler.py:220-231 | Without both columns, every seed's iteration visits the seed and raises: the second load's error propagates |
| `FbCrawl.MissingColumnStopsPass` | crawler.py:216-234 | So every pass raises right after visiting its first seed |
| `FbCrawl.SleepsForMembers` | crawler.py:259-278 | Every sleep is the delay of one of the blocks before it |
| `FbCrawl.SleepsForIncreasing` | crawler.py:259-278 | The sleeps come in increasing order |
| `FbCrawl.SleepsForTaken` | crawler.py:259-278 | The sleep of block i is taken exactly when block i raised |
| `FbCrawl.BlocksFrom` | crawler.py:259-285 | From any block on, the run ends with four outcomes. The sleeps are those of the first three, and the status is 1 exactly when the fourth raised |
| `FbCrawl.RunShape` | crawler.py:259-285 | All four passes run, even after one that succeeded. Blocks 1-3 sleep 100, 400 and 800 exactly when they raised, in that order. The status is 1 exactly when the fourth raised |
| `FbCrawl.VisitAndExtract` | crawler.py:170-213 | The method's new state and result are those of `Visit` |
| `FbCrawl.VisitFrontier` | crawler.py:233-234 | The loop's new state and result are those of `VisitAll` |
| `FbCrawl.ProcessSeed` | crawler.py:217-234 | One seed's iteration ends in the state `SeedRun` gives |
| `FbCrawl.ProcessProfiles` | crawler.py:216-234 | The loop over the seeds ends in the state `ProfilesRun` gives |
| `FbCrawl.CrawlInFourBlocks` | crawler.py:259-285 | The four blocks' state, outcomes, sleeps and exit status are those of `RunFb` |
| `FbCrawl.CrawlFacebook` | crawler.py:259-287 | The same, with the count read by `parse_number_of_friends` |

## Left out

- Browser automation is a function parameter. This covers:
  - in `crawler_ig.py`: `scroll_until_end`, `extract_following`, `get_following_count`, `open_following_modal`, and the page part of `visit_and_extract`;
  - in `crawler.py`: `has_friends_visible`, `zoom_out_load_friends`, `scroll_to_bottom`, `extract_friends`, `detect_graphql_error`.

  The parameter returns the following list, count and HTML; or hidden/visible plus the count text; or an exception. It is told how many visits came before, so it may answer differently each time.
- `detect_graphql_error` calls `sys.exit` from a response listener. That process exit is not modelled; a bare `except:` in `crawler.py` would also catch it.
- `IgCrawl.RunShape` and `FbCrawl.RunShape`: each attempt's `with Camoufox(...)` is outside its `try`, so a browser that fails to launch or to close raises out of the retry loop at once. The model has no such failure: every attempt's browser opens and closes. In the code, `crawler_ig.py` then exits with status 1 after fewer attempts, and `crawler.py` skips its later blocks.
- `FbNames.ExtractProfileName`: a name holding '/' (a seed URL ending in a slash, such as `https://www.facebook.com/jane.doe/`, gives `jane.doe/`) names a file in a directory that does not exist. In the code `duckdb.connect` then raises in both loads and in the save, so every pass raises at that seed right after visiting it. The model keys the store by the name and saves normally.
- `prueba.py` and `session_init.py` are interactive or browser-only scripts, and are not part of this model.
- These are left out because they are I/O:
  - reading the CSV files (rows are the input);
  - `argparse`;
  - `os.path.join` and the output directory (a store file is keyed by the profile name);
  - `print` and `traceback`.
- `time.sleep` is recorded as the list of delays slept, not as time.
- Store failures are not modelled: I/O errors, a DuckDB lock, a failing INSERT. `save_to_duckdb` always succeeds. The one store error modelled is a `SELECT` on a file without tables.
- The HTML snapshot is saved as an opaque string, and `crawler.py` always saves "".
- `IgCounts.ParseCompactNumber`: the K/M/B path uses exact decimals, not IEEE doubles. CPython gives 2009 for "2.01K"; this model gives 2010. The integer path is exact only below 2^53 in CPython, while this model is exact for all sizes. A number part too long for a double becomes `inf` in CPython, and `int()` then raises `OverflowError`; the model returns the exact number.
- `FbNames.ParseNumberOfFriends`, `FbNames.ParseToken` and `FbNames.ThousandsCount`: the K branch computes `int(float(s[:-1]) * 1000)` with exact decimals, not IEEE doubles. CPython gives 2009 for "2.01K"; this model gives 2010. CPython's product is exact only below 2^53, while the model's "digits then K gives the number times 1000" holds for every length. A literal above about 1.8e305 makes the product `inf`, and `int()` then raises `OverflowError`, which the model does not raise: it returns the exact product, so "the only error is `ValueError`" holds of the model, not of the code.
- `FbNames.ParseToken`: the same exact-decimal K branch as the line above, with no `OverflowError` for a product that overflows a double.
- `FbNames.ThousandsCount`: holds for every length of digits, where CPython's double product is exact only below 2^53.
- `FbNames.ParseNumberOfFriends`: in the K branch, only plain decimal literals are accepted. That means an optional sign, digits and at most one '.'. Exponents, underscores, "inf" and "nan", which `float()` also accepts, are treated as `ValueError`. `int()` is modelled for ASCII digits with single underscores.
- `\s` and `str.strip()` use the whole whitespace set of Python's `str.isspace`. `\d`, the digits `int()` and `float()` accept, and `str.upper()` are ASCII only, where Python also accepts other Unicode digits and upper-cases other letters.
- `Urls.UrlParse` splits scheme, netloc, path and query only. It has no `;params` split, no IPv6 brackets, no lower-casing of the scheme (which the crawlers never read) and no scheme-specific rules. It strips leading C0 controls and spaces as current CPython releases do; releases older than 3.10.12 and 3.11.4 only delete tab, carriage return and line feed.
- Weights from `pd.to_numeric` are integers or non-numeric (coerced to 0). Fractional and NaN weights are left out, because the model has no floating point.
- The crawl itself uses one fixed order for each unspecified order. That is the first occurrence for `SELECT DISTINCT`, and a stable sort for `sort_values`. The selector lemmas hold for every admissible order; the crawl lemmas are proved for the fixed one.
- The four copy-pasted blocks of `crawler.py` are modelled as a loop over the three sleeping blocks, followed by the final block.
