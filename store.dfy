/** The graph store: the DuckDB files save_to_duckdb writes (one per seed
    profile, in the run's output directory), each holding the append-only
    tables friendships(profile, friend, name) and
    profile_doms(profile, n_friends, dom). */
module Store {

  /** One entry of the following list a visit extracts: {'url', 'name'}. */
  datatype Following = Following(url: string, name: string)

  datatype Friendship = Friendship(profile: string, friend: string, name: string)

  datatype ProfileDom = ProfileDom(profile: string, nFriends: int, dom: string)

  /** One DuckDB file. `exist` is false until the first save_to_duckdb runs
      CREATE TABLE IF NOT EXISTS; the two tables are always created together,
      so one flag stands for both. */
  datatype Tables = Tables(exist: bool, friendships: seq<Friendship>, profileDoms: seq<ProfileDom>)

  /** duckdb.connect on a path where no file exists yet opens an empty database. */
  const NoTables := Tables(false, [], [])

  /** The friendships rows one save inserts, in the order of the list. */
  function EdgeRows(profile: string, following: seq<Following>): (rows: seq<Friendship>)
    ensures |rows| == |following|
    ensures forall i :: 0 <= i < |rows| ==>
      rows[i] == Friendship(profile, following[i].url, following[i].name)
  {
    if following == [] then []
    else [Friendship(profile, following[0].url, following[0].name)] + EdgeRows(profile, following[1..])
  }

  lemma {:induction false} EdgeRowsConcat(profile: string, a: seq<Following>, b: seq<Following>)
    ensures EdgeRows(profile, a + b) == EdgeRows(profile, a) + EdgeRows(profile, b)
  {
    if a == [] {
      assert a + b == b;
    } else {
      assert (a + b)[1..] == a[1..] + b;
      EdgeRowsConcat(profile, a[1..], b);
    }
  }

  /** One more followed account adds one more row at the end. */
  lemma EdgeRowsStep(before: seq<Friendship>, profile: string, following: seq<Following>, i: int)
    requires 0 <= i < |following|
    ensures before + EdgeRows(profile, following[..i + 1]) ==
      before + EdgeRows(profile, following[..i]) + [Friendship(profile, following[i].url, following[i].name)]
  {
    EdgeRowsConcat(profile, following[..i], [following[i]]);
    assert following[..i + 1] == following[..i] + [following[i]];
  }

  /** The tables after save_to_duckdb(profile, following, n_friends, dom). */
  function AfterSave(t: Tables, profile: string, following: seq<Following>, nFriends: int, dom: string): Tables
  {
    Tables(true, t.friendships + EdgeRows(profile, following), t.profileDoms + [ProfileDom(profile, nFriends, dom)])
  }

  /** A save creates the tables, keeps every earlier row where it was, appends
      one friendships row per followed account in list order, and exactly one
      profile_doms row. */
  lemma SaveAppends(t: Tables, profile: string, following: seq<Following>, nFriends: int, dom: string)
    ensures var r := AfterSave(t, profile, following, nFriends, dom);
      && r.exist
      && |r.friendships| == |t.friendships| + |following|
      && r.friendships[..|t.friendships|] == t.friendships
      && (forall i :: 0 <= i < |following| ==>
            r.friendships[|t.friendships| + i] == Friendship(profile, following[i].url, following[i].name))
      && |r.profileDoms| == |t.profileDoms| + 1
      && r.profileDoms[..|t.profileDoms|] == t.profileDoms
      && r.profileDoms[|t.profileDoms|] == ProfileDom(profile, nFriends, dom)
  {
  }

  /** SELECT DISTINCT profile FROM profile_doms. */
  function Visited(t: Tables): set<string>
  {
    set d | d in t.profileDoms :: d.profile
  }

  /** After a save the saved profile counts as visited, and nothing else changes. */
  lemma SaveMarksVisited(t: Tables, profile: string, following: seq<Following>, nFriends: int, dom: string)
    ensures Visited(AfterSave(t, profile, following, nFriends, dom)) == Visited(t) + {profile}
  {
    var r := AfterSave(t, profile, following, nFriends, dom);
    assert r.profileDoms[|t.profileDoms|].profile == profile;
    forall x | x in Visited(r) ensures x in Visited(t) + {profile} {
      var d :| d in r.profileDoms && d.profile == x;
      if d != ProfileDom(profile, nFriends, dom) {
        assert d in t.profileDoms;
      }
    }
  }

  /** The (name, friend) pairs recorded for a profile, in table order, before
      SELECT DISTINCT removes repeats. */
  function Recorded(rows: seq<Friendship>, profile: string): (pairs: seq<(string, string)>)
    ensures forall p :: p in pairs <==> Friendship(profile, p.1, p.0) in rows
  {
    if rows == [] then []
    else
      var last := rows[|rows| - 1];
      var init := Recorded(rows[..|rows| - 1], profile);
      assert rows == rows[..|rows| - 1] + [last];
      if last.profile == profile then init + [(last.name, last.friend)] else init
  }

  /** The pairs of a following list, as save_to_duckdb records them. */
  function Pairs(following: seq<Following>): (pairs: seq<(string, string)>)
    ensures |pairs| == |following|
    ensures forall i :: 0 <= i < |pairs| ==> pairs[i] == (following[i].name, following[i].url)
  {
    if following == [] then [] else [(following[0].name, following[0].url)] + Pairs(following[1..])
  }

  lemma {:induction false} RecordedConcat(a: seq<Friendship>, b: seq<Friendship>, profile: string)
    ensures Recorded(a + b, profile) == Recorded(a, profile) + Recorded(b, profile)
  {
    if b == [] {
      assert a + b == a;
    } else {
      var b' := b[..|b| - 1];
      assert (a + b)[..|a + b| - 1] == a + b';
      assert (a + b)[|a + b| - 1] == b[|b| - 1];
      RecordedConcat(a, b', profile);
    }
  }

  lemma {:induction false} RecordedEdgeRows(profile: string, following: seq<Following>, q: string)
    ensures Recorded(EdgeRows(profile, following), q) == if q == profile then Pairs(following) else []
  {
    if following != [] {
      var head := [Friendship(profile, following[0].url, following[0].name)];
      RecordedEdgeRows(profile, following[1..], q);
      RecordedConcat(head, EdgeRows(profile, following[1..]), q);
      assert Recorded(head, q) == if q == profile then [(following[0].name, following[0].url)] else [] by {
        assert head[..0] == [];
      }
    }
  }

  /** A save adds the visited profile's edges, in list order, to what is
      recorded for that profile, and leaves every other profile's edges alone. */
  lemma SaveRecords(t: Tables, profile: string, following: seq<Following>, nFriends: int, dom: string, q: string)
    ensures Recorded(AfterSave(t, profile, following, nFriends, dom).friendships, q) ==
      Recorded(t.friendships, q) + (if q == profile then Pairs(following) else [])
  {
    RecordedConcat(t.friendships, EdgeRows(profile, following), q);
    RecordedEdgeRows(profile, following, q);
  }

  /** b is a with rows appended to both tables and, perhaps, the tables
      created: a store file only ever grows. */
  ghost predicate Extends(a: Tables, b: Tables)
  {
    (a.exist ==> b.exist) && a.friendships <= b.friendships && a.profileDoms <= b.profileDoms
  }

  /** A save only appends. */
  lemma AfterSaveExtends(t: Tables, profile: string, following: seq<Following>, nFriends: int, dom: string)
    ensures Extends(t, AfterSave(t, profile, following, nFriends, dom))
  {
  }

  /** A profile visited in a store file stays visited as the file grows. */
  lemma ExtendsVisited(a: Tables, b: Tables)
    requires Extends(a, b)
    ensures Visited(a) <= Visited(b)
  {
    forall x | x in Visited(a) ensures x in Visited(b) {
      var d :| d in a.profileDoms && d.profile == x;
      var i :| 0 <= i < |a.profileDoms| && a.profileDoms[i] == d;
      assert b.profileDoms[i] == d;
    }
  }

  /** The DuckDB file a path names, empty if nothing was ever saved there. */
  function Open(files: map<string, Tables>, name: string): Tables
  {
    if name in files then files[name] else NoTables
  }

  /** What a crawler process leaves behind: the DuckDB files of its output
      directory, keyed by the profile name they are named after, and the URLs
      it sent the browser to, in order (the log also numbers the browser's
      answers: the k-th visit is answered with call index k). */
  datatype Crawl = Crawl(files: map<string, Tables>, visits: seq<string>)

  /** Every store file of d extends the one of c of the same name. */
  ghost predicate Grows(c: Crawl, d: Crawl)
  {
    forall n :: Extends(Open(c.files, n), Open(d.files, n))
  }

  lemma GrowsTrans(c: Crawl, d: Crawl, e: Crawl)
    requires Grows(c, d) && Grows(d, e)
    ensures Grows(c, e)
  {
    forall n ensures Extends(Open(c.files, n), Open(e.files, n)) {
      assert Extends(Open(c.files, n), Open(d.files, n));
      assert Extends(Open(d.files, n), Open(e.files, n));
    }
  }

  /** The crawler's mutable state. */
  class Workspace {
    var files: map<string, Tables>
    var visits: seq<string>

    constructor ()
      ensures files == map[] && visits == []
    {
      files := map[];
      visits := [];
    }

    function State(): Crawl
      reads this
    {
      Crawl(files, visits)
    }

    /** save_to_duckdb(db_name, profile_url, following, n_following, dom_html):
        the two CREATE TABLE IF NOT EXISTS, one INSERT per followed account,
        then the profile_doms INSERT. Only the named file changes. */
    method SaveToDuckdb(name: string, profile: string, following: seq<Following>, nFriends: int, dom: string)
      modifies this
      ensures files == old(files)[name := AfterSave(Open(old(files), name), profile, following, nFriends, dom)]
      ensures visits == old(visits)
    {
      var t := Open(files, name);
      files := files[name := t.(exist := true)];
      ghost var rows := t.friendships;
      assert rows == t.friendships + EdgeRows(profile, following[..0]);
      for i := 0 to |following|
        invariant visits == old(visits)
        invariant files == old(files)[name := Tables(true, rows, t.profileDoms)]
        invariant rows == t.friendships + EdgeRows(profile, following[..i])
      {
        var row := Friendship(profile, following[i].url, following[i].name);
        InsertFriendship(name, row);
        EdgeRowsStep(t.friendships, profile, following, i);
        rows := rows + [row];
      }
      assert following[..|following|] == following;
      InsertProfileDom(name, ProfileDom(profile, nFriends, dom));
    }

    /** INSERT INTO friendships VALUES (?, ?, ?) on the named file. */
    method InsertFriendship(name: string, row: Friendship)
      modifies this
      ensures files == old(files)[name := Open(old(files), name).(friendships := Open(old(files), name).friendships + [row])]
      ensures visits == old(visits)
    {
      var t := Open(files, name);
      files := files[name := t.(friendships := t.friendships + [row])];
    }

    /** INSERT INTO profile_doms VALUES (?, ?, ?) on the named file. */
    method InsertProfileDom(name: string, row: ProfileDom)
      modifies this
      ensures files == old(files)[name := Open(old(files), name).(profileDoms := Open(old(files), name).profileDoms + [row])]
      ensures visits == old(visits)
    {
      var t := Open(files, name);
      files := files[name := t.(profileDoms := t.profileDoms + [row])];
    }
  }
}
