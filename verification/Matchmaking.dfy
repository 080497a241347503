/** Matchmaking: which gatherings a searching client is offered, in what order, and with what bytes. */
module Matchmaking {
  import opened Bytes
  import opened Options
  import opened Seqs
  import opened GatheringCodec
  import opened GatheringStore

  datatype User = User(username: string, pid: u32, usids: string)

  datatype Scored = Scored(gathering: Doc, score: nat)

  /** One offered gathering as it is written to the wire. */
  datatype Entry = Entry(outerLength: u32, innerLength: u32, bytes: seq<byte>)

  datatype Reply = Reply(count: nat, entries: seq<Entry>)

  const FRESH := 300
  const SAMPLE_SIZE := 10

  // ---------- song lists ----------

  function SplitOnComma(s: string): (parts: seq<string>)
    ensures |parts| >= 1
  {
    if s == "" then [""]
    else
      var rest := SplitOnComma(s[1..]);
      if s[0] == ',' then [""] + rest else [[s[0]] + rest[0]] + rest[1..]
  }

  predicate IsSpace(c: char) {
    c == ' ' || '\t' <= c <= '\r'
  }

  function TrimLeft(s: string): string {
    if s != "" && IsSpace(s[0]) then TrimLeft(s[1..]) else s
  }

  function TrimRight(s: string): string {
    if s != "" && IsSpace(s[|s| - 1]) then TrimRight(s[..|s| - 1]) else s
  }

  function TrimSpace(s: string): string {
    TrimRight(TrimLeft(s))
  }

  /** The parts with commas between them. */
  function Joined(parts: seq<string>): string
    requires |parts| >= 1
  {
    if |parts| == 1 then parts[0] else parts[0] + "," + Joined(parts[1..])
  }

  /** The parts of a list have no commas, and with commas between them they are the list. */
  lemma {:induction false} SplitIsBetweenCommas(s: string)
    ensures Joined(SplitOnComma(s)) == s
    ensures forall i :: 0 <= i < |SplitOnComma(s)| ==> ',' !in SplitOnComma(s)[i]
  {
    if s == "" {
    } else {
      var parts, rest := SplitOnComma(s), SplitOnComma(s[1..]);
      SplitIsBetweenCommas(s[1..]);
      assert s == [s[0]] + s[1..];
      if s[0] == ',' {
        assert parts[1..] == rest;
      } else {
        assert parts[1..] == rest[1..];
        forall i | 0 <= i < |parts|
          ensures ',' !in parts[i]
        {
          assert i > 0 ==> parts[i] == rest[i];
        }
        if |rest| > 1 {
          Associative([s[0]], rest[0], "," + Joined(rest[1..]));
          Associative([s[0]] + rest[0], ",", Joined(rest[1..]));
          Associative(rest[0], ",", Joined(rest[1..]));
        }
      }
    }
  }

  predicate AllSpace(s: string) {
    forall i :: 0 <= i < |s| ==> s[i] as int in {9, 10, 11, 12, 13, 32}
  }

  lemma {:induction false} TrimLeftIs(s: string) returns (head: string)
    ensures s == head + TrimLeft(s) && AllSpace(head)
    ensures TrimLeft(s) != "" ==> !AllSpace(TrimLeft(s)[..1])
  {
    head := "";
    if s != "" && IsSpace(s[0]) {
      head := TrimLeftIs(s[1..]);
      assert s == [s[0]] + s[1..];
      Associative([s[0]], head, TrimLeft(s));
      head := [s[0]] + head;
    }
  }

  lemma {:induction false} TrimRightIs(s: string) returns (tail: string)
    ensures s == TrimRight(s) + tail && AllSpace(tail)
    ensures TrimRight(s) != "" ==> !AllSpace(TrimRight(s)[|TrimRight(s)| - 1..])
  {
    tail := "";
    if s != "" && IsSpace(s[|s| - 1]) {
      tail := TrimRightIs(s[..|s| - 1]);
      assert s == s[..|s| - 1] + [s[|s| - 1]];
      Associative(TrimRight(s), tail, [s[|s| - 1]]);
      tail := tail + [s[|s| - 1]];
    }
  }

  /** Trimming takes white space off both ends, as much as there is. */
  lemma TrimIs(s: string) returns (head: string, tail: string)
    ensures s == head + TrimSpace(s) + tail && AllSpace(head) && AllSpace(tail)
    ensures TrimSpace(s) == "" || (!AllSpace(TrimSpace(s)[..1]) && !AllSpace(TrimSpace(s)[|TrimSpace(s)| - 1..]))
  {
    head := TrimLeftIs(s);
    tail := TrimRightIs(TrimLeft(s));
    Associative(head, TrimSpace(s), tail);
    if TrimSpace(s) != "" {
      assert TrimSpace(s)[..1] == TrimLeft(s)[..1];
    }
  }

  /** The trimmed non-empty parts of a song list. */
  function Songs(parts: seq<string>): set<string> {
    if parts == [] then {}
    else
      var song := parts[|parts| - 1];
      Songs(parts[..|parts| - 1]) + if song != "" then {TrimSpace(song)} else {}
  }

  function SongSet(usids: string): set<string> {
    Songs(SplitOnComma(usids))
  }

  function Shared(songs: set<string>): string -> bool {
    (song: string) => TrimSpace(song) in songs
  }

  /** How many entries of the creator's song list the searcher has too. */
  function Similarity(d: Doc, creators: map<string, User>, songs: set<string>): nat {
    if d.creator in creators then Count(SplitOnComma(creators[d.creator].usids), Shared(songs)) else 0
  }

  /** The songs of a list: its parts between commas that are not empty, trimmed. */
  lemma {:induction false} SongsAre(parts: seq<string>)
    ensures forall song :: song in Songs(parts)
              <==> exists k :: 0 <= k < |parts| && parts[k] != "" && TrimSpace(parts[k]) == song
  {
    if parts == [] {
    } else {
      var n := |parts| - 1;
      SongsAre(parts[..n]);
      forall song
        ensures song in Songs(parts) <==> exists k :: 0 <= k < |parts| && parts[k] != "" && TrimSpace(parts[k]) == song
      {
        assert forall k :: 0 <= k < n ==> parts[..n][k] == parts[k];
      }
    }
  }

  /** The similarity is the number of parts of the creator's list that the searcher has too, and 0 for a stranger. */
  lemma SimilarityCounts(d: Doc, creators: map<string, User>, usids: string)
    ensures d.creator in creators ==>
      var theirs, mine := SplitOnComma(creators[d.creator].usids), SplitOnComma(usids);
      var shared := set j | 0 <= j < |theirs|
                            && (exists k :: 0 <= k < |mine| && mine[k] != ""
                                            && TrimSpace(mine[k]) == TrimSpace(theirs[j]));
      Similarity(d, creators, SongSet(usids)) == |shared|
    ensures d.creator !in creators ==> Similarity(d, creators, SongSet(usids)) == 0
  {
    if d.creator in creators {
      var theirs, mine := SplitOnComma(creators[d.creator].usids), SplitOnComma(usids);
      SongsAre(mine);
      var shared := set j | 0 <= j < |theirs|
                            && (exists k :: 0 <= k < |mine| && mine[k] != ""
                                            && TrimSpace(mine[k]) == TrimSpace(theirs[j]));
      CountIsSize(theirs, Shared(Songs(mine)), shared);
    }
  }

  /** The creator of an offer has a song that the searcher has too. */
  predicate SharesASong(d: Doc, creators: map<string, User>, usids: string) {
    d.creator in creators
    && var theirs, mine := SplitOnComma(creators[d.creator].usids), SplitOnComma(usids);
       exists j, k :: 0 <= j < |theirs| && 0 <= k < |mine| && mine[k] != ""
                      && TrimSpace(mine[k]) == TrimSpace(theirs[j])
  }

  /** So it is positive exactly if there is such a part at all. */
  lemma SharersArePositive(d: Doc, creators: map<string, User>, usids: string)
    ensures Similarity(d, creators, SongSet(usids)) > 0 <==> SharesASong(d, creators, usids)
  {
    if d.creator in creators {
      var theirs, mine := SplitOnComma(creators[d.creator].usids), SplitOnComma(usids);
      SongsAre(mine);
      CountNone(theirs, Shared(Songs(mine)));
      if song :| song in theirs && Shared(Songs(mine))(song) {
        var j :| 0 <= j < |theirs| && theirs[j] == song;
        var k :| 0 <= k < |mine| && mine[k] != "" && TrimSpace(mine[k]) == TrimSpace(song);
      }
      if j, k :| 0 <= j < |theirs| && 0 <= k < |mine| && mine[k] != "" && TrimSpace(mine[k]) == TrimSpace(theirs[j]) {
        assert theirs[j] in theirs && Shared(Songs(mine))(theirs[j]);
      }
    }
  }

  // ---------- queries ----------

  predicate Compatible(platform: int, consoleType: int) {
    if platform == 1 || platform == 3 then consoleType == 1 || consoleType == 3 else consoleType == platform
  }

  function Candidate(client: Client, now: int): Doc -> bool {
    (d: Doc) =>
      && d.creator != client.username
      && d.lastUpdated > now - FRESH
      && d.state != 2
      && d.state != 6
      && d.public == 1
      && Compatible(client.platform, d.consoleType)
  }

  /**
   * The query finds the other creators' public gatherings that were updated in the last five minutes, are neither in a
   * song nor on song select, and are of the searcher's console type; a PS3 and an emulated one find each other's.
   */
  lemma CandidatesAre(docs: seq<Doc>, client: Client, now: int)
    ensures Filter(docs, Candidate(client, now))
         == Filter(docs, (d: Doc) =>
              d.creator != client.username && d.public == 1 && d.state != 2 && d.state != 6
              && now - d.lastUpdated < 300
              && (d.consoleType == client.platform
                  || (client.platform == 1 && d.consoleType == 3) || (client.platform == 3 && d.consoleType == 1)))
  {
    FilterAgree(docs, Candidate(client, now), (d: Doc) =>
      d.creator != client.username && d.public == 1 && d.state != 2 && d.state != 6
      && now - d.lastUpdated < 300
      && (d.consoleType == client.platform
          || (client.platform == 1 && d.consoleType == 3) || (client.platform == 3 && d.consoleType == 1)));
  }

  function NamedIn(names: set<string>): User -> bool {
    (u: User) => u.username in names
  }

  /** Users by name; a later user of the same name replaces an earlier one. */
  function ByName(users: seq<User>): map<string, User> {
    if users == [] then map[] else ByName(users[..|users| - 1])[users[|users| - 1].username := users[|users| - 1]]
  }

  lemma {:induction false} ByNameHas(users: seq<User>, name: string)
    ensures name in ByName(users) <==> exists u :: u in users && u.username == name
    ensures name in ByName(users) ==> ByName(users)[name] in users && ByName(users)[name].username == name
  {
    if users == [] {
    } else {
      var k := |users| - 1;
      ByNameHas(users[..k], name);
      assert forall u :: u in users <==> u in users[..k] || u == users[k];
    }
  }

  /** `k` is the last user of a name. */
  predicate IsLastNamed(users: seq<User>, name: string, k: nat) {
    k < |users| && users[k].username == name && forall i :: k < i < |users| ==> users[i].username != name
  }

  /** Fetched by a set of names, each of them has its last user. */
  lemma {:induction false} ByNameIsLast(users: seq<User>, names: set<string>, name: string, k: nat)
    requires IsLastNamed(users, name, k) && name in names
    ensures name in ByName(Filter(users, NamedIn(names)))
    ensures ByName(Filter(users, NamedIn(names)))[name] == users[k]
  {
    var n := |users| - 1;
    ByNameNext(Filter(users[..n], NamedIn(names)), users[n]);
    FilterNext(users, n, NamedIn(names));
    assert users[..n + 1] == users;
    if k < n {
      ByNameIsLast(users[..n], names, name, k);
    }
  }

  lemma ByNameNext(users: seq<User>, u: User)
    ensures ByName(users + [u]) == ByName(users)[u.username := u]
  {
    assert (users + [u])[..|users|] == users;
  }

  lemma {:induction false} LastNamed(users: seq<User>, name: string) returns (k: nat)
    requires exists u :: u in users && u.username == name
    ensures IsLastNamed(users, name, k)
  {
    var n := |users| - 1;
    if users[n].username == name {
      k := n;
    } else {
      var u :| u in users && u.username == name;
      assert u in users[..n];
      k := LastNamed(users[..n], name);
    }
  }

  // ---------- the handler ----------

  predicate Descending(s: seq<Scored>) {
    forall i, j :: 0 <= i < j < |s| ==> s[i].score >= s[j].score
  }

  method InsertByScore(r: seq<Scored>, x: Scored) returns (r': seq<Scored>)
    requires Descending(r)
    ensures Descending(r') && |r'| == |r| + 1
    ensures multiset(r') == multiset(r) + multiset{x}
  {
    var p := 0;
    while p < |r| && r[p].score >= x.score
      invariant p <= |r| && forall j :: 0 <= j < p ==> r[j].score >= x.score
    {
      p := p + 1;
    }
    r' := r[..p] + [x] + r[p..];
    InsertedIsPermutation(r, p, x);
    forall i, j | 0 <= i < j < |r'|
      ensures r'[i].score >= r'[j].score
    {
      assert r'[i] == if i < p then r[i] else if i == p then x else r[i - 1];
      assert r'[j] == if j < p then r[j] else if j == p then x else r[j - 1];
    }
  }

  lemma InsertedIsPermutation<T>(r: seq<T>, p: nat, x: T)
    requires p <= |r|
    ensures multiset(r[..p] + [x] + r[p..]) == multiset(r) + multiset{x}
  {
    assert r == r[..p] + r[p..];
  }

  method SortByScore(s: seq<Scored>) returns (r: seq<Scored>)
    ensures multiset(r) == multiset(s) && |r| == |s|
    ensures Descending(r)
  {
    r := [];
    for i := 0 to |s|
      invariant multiset(r) == multiset(s[..i]) && |r| == i
      invariant Descending(r)
    {
      assert s[..i + 1] == s[..i] + [s[i]];
      r := InsertByScore(r, s[i]);
    }
    assert s[..|s|] == s;
  }

  /** The entries written for a list of offers: creators that cannot be found are skipped. */
  function Written(offered: seq<Doc>, creators: map<string, User>): (entries: seq<Entry>)
    requires forall d :: d in offered ==> |d.contents| >= SIZE
    ensures |entries| <= |offered|
  {
    if offered == [] then []
    else
      var d := offered[|offered| - 1];
      Written(offered[..|offered| - 1], creators)
      + if d.creator in creators then [EntryFor(d, creators[d.creator])] else []
  }

  function EntryFor(d: Doc, creator: User): Entry
    requires |d.contents| >= SIZE
  {
    Entry((|d.contents| + 4) % 0x1_0000_0000, |d.contents| % 0x1_0000_0000, WithOwner(d.contents, creator.pid))
  }

  predicate MaySee(client: Client, d: Doc, now: int) {
    && d.creator != client.username
    && now - d.lastUpdated < 300
    && d.state !in {2, 6}
    && (d.consoleType == client.platform || {d.consoleType, client.platform} == {1, 3})
  }

  function Creators(users: seq<User>, docs: seq<Doc>): map<string, User> {
    var names := set d | d in docs :: d.creator;
    ByName(Filter(users, NamedIn(names)))
  }

  /** The matching gatherings that the random sample picked. */
  function Sampled(docs: seq<Doc>, client: Client, now: int, picks: seq<nat>): (gatherings: seq<Doc>)
    requires forall i :: 0 <= i < |picks| ==> picks[i] < |Filter(docs, Candidate(client, now))|
  {
    var matched := Filter(docs, Candidate(client, now));
    seq(|picks|, i requires 0 <= i < |picks| => matched[picks[i]])
  }

  lemma SampledMaySee(docs: seq<Doc>, client: Client, now: int, picks: seq<nat>)
    requires AllPublicAgree(docs)
    requires forall i :: 0 <= i < |picks| ==> picks[i] < |Filter(docs, Candidate(client, now))|
    ensures forall d :: d in Sampled(docs, client, now, picks) ==>
        d in docs && |d.contents| >= SIZE && MaySee(client, d, now)
  {
    FilterMembers(docs, Candidate(client, now));
    forall d | d in Sampled(docs, client, now, picks)
      ensures d in docs && |d.contents| >= SIZE && MaySee(client, d, now)
    {
      assert d in Filter(docs, Candidate(client, now));
      var k :| 0 <= k < |docs| && docs[k] == d;
      assert PublicAgrees(docs[k]);
    }
  }

  lemma CreatorsOfPermutation(users: seq<User>, s: seq<Doc>, t: seq<Doc>)
    requires multiset(s) == multiset(t)
    ensures forall d :: d in s <==> d in t
    ensures Creators(users, s) == Creators(users, t)
  {
    assert forall d :: (d in s <==> d in multiset(s)) && (d in t <==> d in multiset(t));
    assert (set d | d in s :: d.creator) == (set d | d in t :: d.creator);
  }

  method FetchCreators(users: seq<User>, gatherings: seq<Doc>) returns (creators: map<string, User>)
    ensures creators == Creators(users, gatherings)
  {
    var names := set d | d in gatherings :: d.creator;
    var found := Filter(users, NamedIn(names));
    creators := map[];
    for i := 0 to |found|
      invariant creators == ByName(found[..i])
    {
      assert found[..i + 1][..i] == found[..i];
      creators := creators[found[i].username := found[i]];
    }
    assert found[..|found|] == found;
  }

  /** `picks` are the indices the random sample took of the matching gatherings. */
  method CustomFind(docs: seq<Doc>, client: Client, users: seq<User>, searcherUsids: string, now: int, picks: seq<nat>)
    returns (reply: Reply, offered: seq<Doc>)
    requires AllPublicAgree(docs)
    requires |picks| <= 10
    requires forall i :: 0 <= i < |picks| ==> picks[i] < |Filter(docs, Candidate(client, now))|
    ensures forall d :: d in offered ==> d in docs && |d.contents| >= SIZE && MaySee(client, d, now)
    ensures multiset(offered) == multiset(Sampled(docs, client, now, picks)) && |offered| == |picks|
    ensures var creators, songs := Creators(users, offered), SongSet(searcherUsids);
            forall i, j :: 0 <= i < j < |offered| ==>
              Similarity(offered[i], creators, songs) >= Similarity(offered[j], creators, songs)
    ensures var creators := Creators(users, offered);
            forall i, j :: 0 <= i < j < |offered| && SharesASong(offered[j], creators, searcherUsids) ==>
              SharesASong(offered[i], creators, searcherUsids)
    ensures reply == Reply(|offered|, Written(offered, Creators(users, offered)))
  {
    var gatherings := Sampled(docs, client, now, picks);
    SampledMaySee(docs, client, now, picks);
    var creators := FetchCreators(users, gatherings);
    var songs := SearcherSongs(searcherUsids);
    var scored := ScoreAll(gatherings, creators, songs);
    scored := SortByScore(scored);
    offered := TakeTop(scored, creators, songs, gatherings);
    CreatorsOfPermutation(users, offered, gatherings);
    var entries := WriteEntries(offered, creators);
    reply := Reply(|offered|, entries);
    SharersFirst(offered, creators, searcherUsids);
  }

  lemma SharersFirst(offered: seq<Doc>, creators: map<string, User>, usids: string)
    requires forall i, j :: 0 <= i < j < |offered| ==>
               Similarity(offered[i], creators, SongSet(usids)) >= Similarity(offered[j], creators, SongSet(usids))
    ensures forall i, j :: 0 <= i < j < |offered| && SharesASong(offered[j], creators, usids) ==>
              SharesASong(offered[i], creators, usids)
  {
    forall i, j | 0 <= i < j < |offered| && SharesASong(offered[j], creators, usids)
      ensures SharesASong(offered[i], creators, usids)
    {
      SharersArePositive(offered[i], creators, usids);
      SharersArePositive(offered[j], creators, usids);
    }
  }

  method SearcherSongs(usids: string) returns (songs: set<string>)
    ensures songs == SongSet(usids)
  {
    var parts := SplitOnComma(usids);
    songs := {};
    for i := 0 to |parts|
      invariant songs == Songs(parts[..i])
    {
      assert parts[..i + 1][..i] == parts[..i];
      if parts[i] != "" {
        songs := songs + {TrimSpace(parts[i])};
      }
    }
    assert parts[..|parts|] == parts;
  }

  method ScoreAll(gatherings: seq<Doc>, creators: map<string, User>, songs: set<string>) returns (scored: seq<Scored>)
    ensures scored == AllScored(gatherings, creators, songs)
    ensures forall i :: 0 <= i < |gatherings| ==>
      && scored[i].gathering == gatherings[i]
      && (gatherings[i].creator !in creators ==> scored[i].score == 0)
      && (gatherings[i].creator in creators ==>
            var theirs := SplitOnComma(creators[gatherings[i].creator].usids);
            var shared := set j | 0 <= j < |theirs| && TrimSpace(theirs[j]) in songs;
            scored[i].score == |shared|)
  {
    scored := [];
    for i := 0 to |gatherings|
      invariant |scored| == i
      invariant forall j :: 0 <= j < i ==>
        scored[j] == Scored(gatherings[j], Similarity(gatherings[j], creators, songs))
    {
      var g := gatherings[i];
      var score := 0;
      if g.creator in creators {
        var creatorSongs := SplitOnComma(creators[g.creator].usids);
        for j := 0 to |creatorSongs|
          invariant score == Count(creatorSongs[..j], Shared(songs))
        {
          assert creatorSongs[..j + 1][..j] == creatorSongs[..j];
          if TrimSpace(creatorSongs[j]) in songs {
            score := score + 1;
          }
        }
        assert creatorSongs[..|creatorSongs|] == creatorSongs;
      }
      scored := scored + [Scored(g, score)];
    }
    forall i | 0 <= i < |gatherings| && gatherings[i].creator in creators
      ensures var theirs := SplitOnComma(creators[gatherings[i].creator].usids);
              var shared := set j | 0 <= j < |theirs| && TrimSpace(theirs[j]) in songs;
              scored[i].score == |shared|
    {
      CountShared(SplitOnComma(creators[gatherings[i].creator].usids), songs);
    }
  }

  lemma CountShared(theirs: seq<string>, songs: set<string>)
    ensures var shared := set j | 0 <= j < |theirs| && TrimSpace(theirs[j]) in songs;
            Count(theirs, Shared(songs)) == |shared|
  {
    CountIsSize(theirs, Shared(songs), set j | 0 <= j < |theirs| && TrimSpace(theirs[j]) in songs);
  }

  /** The gatherings of a scored list. */
  function Gatherings(scored: seq<Scored>): seq<Doc> {
    seq(|scored|, i requires 0 <= i < |scored| => scored[i].gathering)
  }

  lemma {:induction false} GatheringsPermute(s: seq<Scored>, t: seq<Scored>)
    requires multiset(s) == multiset(t)
    ensures multiset(Gatherings(s)) == multiset(Gatherings(t))
    decreases |s|
  {
    assert |s| == |multiset(s)| == |multiset(t)| == |t|;
    if s == [] {
    } else {
      var k := |s| - 1;
      assert s[k] in multiset(t);
      var i :| 0 <= i < |t| && t[i] == s[k];
      var t' := t[..i] + t[i + 1..];
      assert s[..k] + s[k + 1..] == s[..k];
      MultisetWithout(s, k);
      MultisetWithout(t, i);
      GatheringsPermute(s[..k], t');
      assert Gatherings(s) == Gatherings(s[..k]) + [s[k].gathering];
      assert Gatherings(t') == Gatherings(t)[..i] + Gatherings(t)[i + 1..];
      MultisetWithout(Gatherings(t), i);
      assert Gatherings(t)[i] in multiset(Gatherings(t));
    }
  }

  function AllScored(gatherings: seq<Doc>, creators: map<string, User>, songs: set<string>): seq<Scored> {
    seq(|gatherings|, i requires 0 <= i < |gatherings| =>
      Scored(gatherings[i], Similarity(gatherings[i], creators, songs)))
  }

  method TakeTop(scored: seq<Scored>, creators: map<string, User>, songs: set<string>, gatherings: seq<Doc>)
    returns (top: seq<Doc>)
    requires |scored| <= SAMPLE_SIZE && Descending(scored)
    requires multiset(scored) == multiset(AllScored(gatherings, creators, songs))
    ensures multiset(top) == multiset(gatherings) && |top| == |scored|
    ensures forall i, j :: 0 <= i < j < |top| ==>
        Similarity(top[i], creators, songs) >= Similarity(top[j], creators, songs)
  {
    ghost var unsorted := AllScored(gatherings, creators, songs);
    forall i | 0 <= i < |scored|
      ensures scored[i].score == Similarity(scored[i].gathering, creators, songs)
    {
      assert scored[i] in multiset(unsorted);
    }
    var limit := if |scored| < SAMPLE_SIZE then |scored| else SAMPLE_SIZE;
    top := [];
    for i := 0 to limit
      invariant |top| == i && forall j :: 0 <= j < i ==> top[j] == scored[j].gathering
    {
      top := top + [scored[i].gathering];
    }
    assert top == Gatherings(scored) && Gatherings(unsorted) == gatherings;
    GatheringsPermute(scored, unsorted);
  }

  method WriteEntries(top: seq<Doc>, creators: map<string, User>) returns (entries: seq<Entry>)
    requires forall d :: d in top ==> |d.contents| >= SIZE
    ensures entries == Written(top, creators)
  {
    entries := [];
    for i := 0 to |top|
      invariant entries == Written(top[..i], creators)
    {
      assert top[..i + 1][..i] == top[..i];
      if top[i].creator in creators {
        var contents := top[i].contents;
        var pid := PutLittleEndian(creators[top[i].creator].pid, 4);
        var bytes := contents[0..4] + pid + pid + contents[12..];
        entries := entries + [Entry((|contents| + 4) % 0x1_0000_0000, |contents| % 0x1_0000_0000, bytes)];
      }
    }
    assert top[..|top|] == top;
  }

  // ---------- what the searcher reads ----------

  /** The entry has the offer's bytes, with the PID twice for bytes 4 to 11, and their length and that plus four. */
  predicate EntryShows(e: Entry, d: Doc, u: User)
    requires |d.contents| >= SIZE
  {
    var pid := [u.pid % 256, u.pid / 256 % 256, u.pid / 65536 % 256, u.pid / 16777216 % 256];
    && e.bytes == d.contents[..4] + pid + pid + d.contents[12..]
    && e.innerLength == |d.contents| % 0x1_0000_0000 && e.outerLength == (|d.contents| + 4) % 0x1_0000_0000
  }

  lemma EntryShowsOffer(d: Doc, u: User)
    requires |d.contents| >= SIZE
    ensures EntryShows(EntryFor(d, u), d, u)
  {
    SplicedBytes(d.contents, u.pid);
  }

  /** Such an entry reads as the offer's gathering, owned and hosted by the user, and has the offer's length. */
  lemma EntryReads(e: Entry, d: Doc, u: User)
    requires |d.contents| >= SIZE && EntryShows(e, d, u)
    ensures |e.bytes| == |d.contents|
    ensures Deserialize(e.bytes) == Ok(Deserialize(d.contents).value.(idOwner := u.pid, idHost := u.pid))
  {
    SplicedBytes(d.contents, u.pid);
    SpliceCommutesWithParse(d.contents, u.pid);
  }

  lemma SplicedBytes(contents: seq<byte>, v: u32)
    requires |contents| >= SIZE
    ensures var pid := [v % 256, v / 256 % 256, v / 65536 % 256, v / 16777216 % 256];
            WithOwner(contents, v) == contents[..4] + pid + pid + contents[12..]
  {
    Put32(v);
    assert contents[0..4] == contents[..4];
  }

  /** The entry shows the offer with its creator, the last user of the creator's name. */
  ghost predicate ShowsCreator(e: Entry, d: Doc, users: seq<User>)
    requires |d.contents| >= SIZE
  {
    exists k: nat :: IsLastNamed(users, d.creator, k) && EntryShows(e, d, users[k])
  }

  /** These are the offers whose creator was found, in order, and their entries. */
  ghost predicate AreWritten(idx: seq<nat>, offered: seq<Doc>, creators: map<string, User>, entries: seq<Entry>)
    requires forall d :: d in offered ==> |d.contents| >= SIZE
  {
    && Ascending(idx, |offered|)
    && (forall i: nat {:trigger i in idx} :: i in idx <==> i < |offered| && offered[i].creator in creators)
    && |entries| == |idx|
    && forall j :: 0 <= j < |idx| ==>
         var d := offered[idx[j]]; d.creator in creators && entries[j] == EntryFor(d, creators[d.creator])
  }

  lemma WrittenNext(before: seq<nat>, offered: seq<Doc>, d: Doc, creators: map<string, User>, entries: seq<Entry>)
    returns (idx: seq<nat>)
    requires forall e :: e in offered + [d] ==> |e.contents| >= SIZE
    requires (forall e :: e in offered ==> |e.contents| >= SIZE) && AreWritten(before, offered, creators, entries)
    ensures AreWritten(idx, offered + [d], creators,
                       entries + if d.creator in creators then [EntryFor(d, creators[d.creator])] else [])
  {
    AscendsWith(before, |offered|);
    if d.creator in creators {
      idx := before + [|offered|];
      forall i: nat
        ensures i in idx <==> i < |offered| + 1 && (offered + [d])[i].creator in creators
      {
        assert i in idx <==> i in before || i == |offered|;
      }
    } else {
      idx := before;
    }
  }

  lemma {:induction false} WrittenIndices(offered: seq<Doc>, creators: map<string, User>) returns (idx: seq<nat>)
    requires forall d :: d in offered ==> |d.contents| >= SIZE
    ensures AreWritten(idx, offered, creators, Written(offered, creators))
  {
    if offered == [] {
      idx := [];
    } else {
      var k := |offered| - 1;
      assert offered == offered[..k] + [offered[k]];
      var before := WrittenIndices(offered[..k], creators);
      idx := WrittenNext(before, offered[..k], offered[k], creators, Written(offered[..k], creators));
    }
  }

  /** The entries are, in order, those of the offers whose creator is a user, with the creator's PID. */
  lemma EntriesParse(offered: seq<Doc>, users: seq<User>) returns (idx: seq<nat>)
    requires forall d :: d in offered ==> |d.contents| >= SIZE
    ensures Ascending(idx, |offered|)
    ensures forall i: nat :: i in idx
              <==> i < |offered| && exists u :: u in users && u.username == offered[i].creator
    ensures var entries := Written(offered, Creators(users, offered));
            && |entries| == |idx|
            && forall j :: 0 <= j < |idx| ==>
                 offered[idx[j]] in offered && ShowsCreator(entries[j], offered[idx[j]], users)
  {
    var creators := Creators(users, offered);
    idx := WrittenIndices(offered, creators);
    forall i: nat | i < |offered|
      ensures offered[i].creator in creators <==> exists u :: u in users && u.username == offered[i].creator
    {
      CreatorIsUser(offered, users, offered[i]);
    }
    forall j | 0 <= j < |idx|
      ensures offered[idx[j]] in offered && ShowsCreator(Written(offered, creators)[j], offered[idx[j]], users)
    {
      var k := LastNamed(users, offered[idx[j]].creator);
      CreatorIsLast(offered, users, offered[idx[j]], k);
      EntryShowsOffer(offered[idx[j]], users[k]);
    }
  }

  lemma CreatorIsUser(offered: seq<Doc>, users: seq<User>, d: Doc)
    requires d in offered
    ensures d.creator in Creators(users, offered) <==> exists u :: u in users && u.username == d.creator
  {
    var names := set d | d in offered :: d.creator;
    FilterMembers(users, NamedIn(names));
    ByNameHas(Filter(users, NamedIn(names)), d.creator);
  }

  lemma CreatorIsLast(offered: seq<Doc>, users: seq<User>, d: Doc, k: nat)
    requires d in offered && IsLastNamed(users, d.creator, k)
    ensures d.creator in Creators(users, offered) && Creators(users, offered)[d.creator] == users[k]
  {
    var names := set d | d in offered :: d.creator;
    ByNameIsLast(users, names, d.creator, k);
  }

  lemma {:induction false} WrittenLength(offered: seq<Doc>, creators: map<string, User>)
    requires forall d :: d in offered ==> |d.contents| >= SIZE
    ensures |Written(offered, creators)| == |offered| <==> forall d :: d in offered ==> d.creator in creators
  {
    if offered == [] {
    } else {
      var k := |offered| - 1;
      WrittenLength(offered[..k], creators);
      assert forall d :: d in offered <==> d in offered[..k] || d == offered[k];
    }
  }

  /** The count at the head of the reply is the number of entries exactly when every offer's creator is a user. */
  lemma HeaderIsHonestIff(offered: seq<Doc>, users: seq<User>)
    requires forall d :: d in offered ==> |d.contents| >= SIZE
    ensures |Written(offered, Creators(users, offered))| == |offered|
            <==> forall d :: d in offered ==> exists u :: u in users && u.username == d.creator
  {
    var creators := Creators(users, offered);
    WrittenLength(offered, creators);
    forall d | d in offered
      ensures d.creator in creators <==> exists u :: u in users && u.username == d.creator
    {
      CreatorIsUser(offered, users, d);
    }
  }

  // ---------- runs that show it ----------

  /** A gathering whose bytes say "in song" can be offered: the query looks at the state column only. */
  lemma InSongIsOffered(client: Client, searcher: Client, now: int)
    returns (ops: seq<Op>, d: Doc)
    requires client.username == client.playerName || RegistersMachine(client)
    requires searcher.username != client.username && Compatible(searcher.platform, client.platform)
    ensures After(ops) == [d] && ParsedState(d.contents) == Some(2) && d.creator == client.username
    ensures Candidate(searcher, now)(d)
  {
    ops, d := StateColumnCanLag(client, now);
  }

  lemma FilterOne(d: Doc, p: Doc -> bool)
    requires p(d)
    ensures Filter([d], p) == [d]
  {
    assert [d][..0] == [];
  }

  /**
   * A console's master user, who has no user document, registers and publishes a gathering; to another console that
   * finds it the server announces one gathering and sends none.
   */
  lemma CountCanExceedEntries(master: Client, searcher: Client, users: seq<User>, now: int)
    returns (ops: seq<Op>, d: Doc)
    requires RegistersMachine(master) && searcher.platform == WII && searcher.username != master.username
    requires forall u :: u in users ==> u.username != master.username
    ensures After(ops) == [d] && |d.contents| >= SIZE
    ensures Filter([d], Candidate(searcher, now)) == [d] && Sampled([d], searcher, now, [0]) == [d]
    ensures Written([d], Creators(users, [d])) == []
  {
    ops, d := InSongIsOffered(master, searcher, now);
    FilterOne(d, Candidate(searcher, now));
    HeaderIsHonestIff([d], users);
    assert d in [d];
  }
}
