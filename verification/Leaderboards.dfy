/** Song leaderboards: pages found by counting higher scores, ranges, sizes, and the agreement between them. */
module Leaderboards {
  import opened Options
  import opened Seqs
  import opened Scores
  import opened ScoreHistory

  datatype Row = Row(pid: int, rank: int, score: int, diff: int, mask: int, notesPct: int)

  const PAGE := 19

  // ---------- boards ----------

  /** The query of a song's board; modes for friends and for consoles add a set of PIDs. */
  predicate Matches(d: Doc, song: int, role: int, pids: Option<set<int>>) {
    d.SongDoc? && d.song == song && d.role == role && (pids.Some? ==> d.pid in pids.value)
  }

  function OnBoard(song: int, role: int, pids: Option<set<int>>): Doc -> bool {
    (d: Doc) => Matches(d, song, role, pids)
  }

  function Higher(score: int): Doc -> bool {
    (d: Doc) => d.score > score
  }

  function HigherOnBoard(song: int, role: int, pids: Option<set<int>>, score: int): Doc -> bool {
    (d: Doc) => Matches(d, song, role, pids) && d.score > score
  }

  predicate Descending(board: seq<Doc>) {
    forall i, j :: 0 <= i < j < |board| ==> board[i].score >= board[j].score
  }

  /** `board` is the result of a query sorted by score: any order of ties. */
  ghost predicate IsSorted(board: seq<Doc>, found: seq<Doc>) {
    multiset(board) == multiset(found) && Descending(board)
  }

  function RowAt(board: seq<Doc>, i: nat): Row
    requires i < |board|
  {
    var d := board[i];
    if d.SongDoc? then Row(d.pid, i + 1, d.score, d.diff, d.mask, d.notesPct) else Row(d.pid, i + 1, d.score, 0, 0, 0)
  }

  /** The whole board with its ranks. */
  function Ranked(board: seq<Doc>): (rows: seq<Row>)
    ensures |rows| == |board|
  {
    seq(|board|, i requires 0 <= i < |board| => RowAt(board, i))
  }

  function Slice<T>(s: seq<T>, from: nat, to: nat): seq<T>
    requires from <= to
  {
    if from >= |s| then [] else s[from..if to <= |s| then to else |s|]
  }

  /** The most documents that the database sends in its first batch. */
  const FIRST_BATCH := 101

  /** How many documents a find with a limit returns: 0 means all, and a negative limit asks for a single batch. */
  function Returned(board: seq<Doc>, limit: int): nat {
    if limit == 0 then |board|
    else if limit > 0 then limit
    else if -limit <= FIRST_BATCH then -limit
    else FIRST_BATCH
  }

  /** A find with skip and limit: a negative skip is an error. */
  function FindPage(board: seq<Doc>, skip: int, limit: int): Option<seq<Doc>> {
    if skip < 0 then None else Some(Slice(board, skip, skip + Returned(board, limit)))
  }

  // ---------- the services ----------

  /** Build the rows of a page that starts after `skipped` rows. */
  method BuildRows(page: seq<Doc>, skipped: int) returns (rows: seq<Row>)
    ensures |rows| == |page|
    ensures forall i :: 0 <= i < |page| ==> rows[i] == RowAt(page, i).(rank := skipped + i + 1)
  {
    rows := [];
    var idx := skipped + 1;
    for i := 0 to |page|
      invariant |rows| == i && idx == skipped + i + 1
      invariant forall j :: 0 <= j < i ==> rows[j] == RowAt(page, j).(rank := skipped + j + 1)
    {
      var d := page[i];
      if d.SongDoc? {
        rows := rows + [Row(d.pid, idx, d.score, d.diff, d.mask, d.notesPct)];
      } else {
        rows := rows + [Row(d.pid, idx, d.score, 0, 0, 0)];
      }
      idx := idx + 1;
    }
  }

  /** Rows built from a page of the board are that page of the ranked board. */
  lemma PageRows(board: seq<Doc>, skip: nat, n: nat, page: seq<Doc>, rows: seq<Row>)
    requires page == Slice(board, skip, skip + n)
    requires |rows| == |page|
    requires forall i :: 0 <= i < |page| ==> rows[i] == RowAt(page, i).(rank := skip + i + 1)
    ensures rows == Slice(Ranked(board), skip, skip + n)
  {
    forall i | 0 <= i < |page|
      ensures rows[i] == RowAt(board, skip + i)
    {
      assert page[i] == board[skip + i];
    }
  }

  /** Pages start at multiples of their size. */
  function PageStart(position: nat): (start: nat)
    ensures start % PAGE == 0 && start <= position < start + PAGE
  {
    position - position % PAGE
  }

  /** The score the page is centred on: the player's, or the board's top one, or 0 on an empty board. */
  function CentreScore(docs: seq<Doc>, board: seq<Doc>, key: Key): int {
    var k := IndexOf(docs, key);
    if k < |docs| then docs[k].score else if board != [] then board[0].score else 0
  }

  /** What a sorted query for a song's board returns: exactly the documents of its song and role, of these PIDs. */
  lemma BoardDocs(docs: seq<Doc>, board: seq<Doc>, song: int, role: int, pids: Option<set<int>>)
    requires IsSorted(board, Filter(docs, OnBoard(song, role, pids)))
    ensures multiset(board)
         == multiset(Filter(docs, (d: Doc) => d.SongDoc? && d.song == song && d.role == role
                                              && (pids.Some? ==> d.pid in pids.value)))
    ensures forall d :: d in board
              <==> d in docs && d.SongDoc? && d.song == song && d.role == role && (pids.Some? ==> d.pid in pids.value)
  {
    FilterAgree(docs, OnBoard(song, role, pids),
      (d: Doc) => d.SongDoc? && d.song == song && d.role == role && (pids.Some? ==> d.pid in pids.value));
    FilterMembers(docs, OnBoard(song, role, pids));
    assert forall d :: d in board <==> d in multiset(board);
    assert forall d :: d in Filter(docs, OnBoard(song, role, pids))
             <==> d in multiset(Filter(docs, OnBoard(song, role, pids)));
  }

  predicate Shows(row: Row, d: Doc, rank: int) {
    && d.SongDoc?
    && row.pid == d.pid && row.score == d.score && row.diff == d.diff && row.mask == d.mask
    && row.notesPct == d.notesPct && row.rank == rank
  }

  /** The rows show, with their ranks, documents of the song, the role and these PIDs: those from `start` on. */
  predicate ShowsRange(rows: seq<Row>, docs: seq<Doc>, board: seq<Doc>, song: int, role: int, pids: Option<set<int>>,
                       start: nat)
  {
    forall i :: 0 <= i < |rows| ==>
      && start + i < |board| && Shows(rows[i], board[start + i], start + i + 1)
      && board[start + i] in docs && board[start + i].song == song && board[start + i].role == role
      && (pids.Some? ==> board[start + i].pid in pids.value)
  }

  lemma RangeLength(board: seq<Doc>, from: nat, to: nat)
    requires from <= to
    ensures var rows := Slice(Ranked(board), from, to);
            && |rows| == (if |board| <= from then 0 else if |board| < to then |board| - from else to - from)
            && forall i :: 0 <= i < |rows| ==> from + i < |board| && rows[i] == RowAt(board, from + i)
  {
  }

  lemma RowShows(docs: seq<Doc>, board: seq<Doc>, song: int, role: int, pids: Option<set<int>>, i: nat)
    requires IsSorted(board, Filter(docs, OnBoard(song, role, pids))) && i < |board|
    ensures Shows(RowAt(board, i), board[i], i + 1)
    ensures board[i] in docs && board[i].song == song && board[i].role == role
    ensures pids.Some? ==> board[i].pid in pids.value
  {
    BoardDocs(docs, board, song, role, pids);
    assert board[i] in board;
  }

  /** A range of ranks: the documents of a board at these positions. */
  lemma RangeRows(docs: seq<Doc>, board: seq<Doc>, song: int, role: int, pids: Option<set<int>>, from: nat, to: nat,
                  rows: seq<Row>)
    requires from <= to && IsSorted(board, Filter(docs, OnBoard(song, role, pids)))
    requires rows == Slice(Ranked(board), from, to)
    ensures |rows| == (if |board| <= from then 0 else if |board| < to then |board| - from else to - from)
    ensures ShowsRange(rows, docs, board, song, role, pids, from)
  {
    RangeLength(board, from, to);
    forall i | 0 <= i < |rows|
      ensures Shows(rows[i], board[from + i], from + i + 1) && board[from + i] in docs
      ensures board[from + i].song == song && board[from + i].role == role
      ensures pids.Some? ==> board[from + i].pid in pids.value
    {
      RowShows(docs, board, song, role, pids, from + i);
    }
  }

  /** `k` is the player's first document for a song and role. */
  predicate IsPlayersFirst(docs: seq<Doc>, key: Key, k: nat) {
    && k < |docs| && docs[k].SongDoc?
    && docs[k].song == key.song && docs[k].pid == key.pid && docs[k].role == key.role
    && forall i :: 0 <= i < k && docs[i].SongDoc? && docs[i].song == key.song && docs[i].role == key.role ==>
         docs[i].pid != key.pid
  }

  /**
   * The position of a player with a score is the number of higher scores of the song and role, among these PIDs if
   * there is a filter; that of a player without one is 0.
   */
  lemma PositionCounts(docs: seq<Doc>, board: seq<Doc>, key: Key, pids: Option<set<int>>)
    requires IsSorted(board, Filter(docs, OnBoard(key.song, key.role, pids)))
    ensures var position := Count(docs, HigherOnBoard(key.song, key.role, pids, CentreScore(docs, board, key)));
            && (forall k: nat {:trigger IsPlayersFirst(docs, key, k)} :: IsPlayersFirst(docs, key, k) ==>
                  position == Count(docs, (d: Doc) => d.SongDoc? && d.song == key.song && d.role == key.role
                                                      && (pids.Some? ==> d.pid in pids.value)
                                                      && d.score > docs[k].score))
            && ((forall k: nat :: !IsPlayersFirst(docs, key, k)) ==> position == 0)
  {
    var j := IndexOf(docs, key);
    if j < |docs| {
      assert IsPlayersFirst(docs, key, j);
      assert forall k: nat :: IsPlayersFirst(docs, key, k) ==> k == j;
      PlayersPosition(docs, board, key, pids, j);
    } else {
      NothingAboveTop(docs, board, key, pids);
    }
  }

  lemma PlayersPosition(docs: seq<Doc>, board: seq<Doc>, key: Key, pids: Option<set<int>>, k: nat)
    requires k == IndexOf(docs, key) < |docs|
    ensures Count(docs, HigherOnBoard(key.song, key.role, pids, CentreScore(docs, board, key)))
         == Count(docs, (d: Doc) => d.SongDoc? && d.song == key.song && d.role == key.role
                                    && (pids.Some? ==> d.pid in pids.value) && d.score > docs[k].score)
  {
    CountAgree(docs, HigherOnBoard(key.song, key.role, pids, CentreScore(docs, board, key)),
      (d: Doc) => d.SongDoc? && d.song == key.song && d.role == key.role
                  && (pids.Some? ==> d.pid in pids.value) && d.score > docs[k].score);
  }

  /** The page at a position has up to 19 rows, those from the multiple of 19 below it on. */
  lemma PageAt(docs: seq<Doc>, board: seq<Doc>, key: Key, pids: Option<set<int>>, position: nat, rows: seq<Row>)
    requires IsSorted(board, Filter(docs, OnBoard(key.song, key.role, pids)))
    requires rows == Slice(Ranked(board), PageStart(position), PageStart(position) + PAGE)
    ensures var start := position - position % 19;
            && |rows| == (if |board| <= start then 0 else if |board| < start + 19 then |board| - start else 19)
            && ShowsRange(rows, docs, board, key.song, key.role, pids, start)
  {
    RangeRows(docs, board, key.song, key.role, pids, PageStart(position), PageStart(position) + PAGE, rows);
  }

  /** Count the higher scores, and show the page that the count is on. */
  method ShowPage(docs: seq<Doc>, board: seq<Doc>, key: Key, pids: Option<set<int>>, score: int)
    returns (rows: seq<Row>, position: nat)
    ensures position == Count(docs, HigherOnBoard(key.song, key.role, pids, score))
    ensures rows == Slice(Ranked(board), PageStart(position), PageStart(position) + PAGE)
  {
    position := Count(docs, HigherOnBoard(key.song, key.role, pids, score));
    var startRank := PageStart(position);
    var page := FindPage(board, startRank, PAGE);
    rows := BuildRows(page.value, startRank);
    PageRows(board, startRank, PAGE, page.value, rows);
  }

  /** leaderboards/player/get for one song; `board` is what the sorted queries return. */
  method PlayerGet(docs: seq<Doc>, board: seq<Doc>, key: Key, pids: Option<set<int>>)
    returns (rows: seq<Row>, position: nat)
    requires IsSorted(board, Filter(docs, OnBoard(key.song, key.role, pids)))
    ensures position == Count(docs, HigherOnBoard(key.song, key.role, pids, CentreScore(docs, board, key)))
    ensures rows == Slice(Ranked(board), PageStart(position), PageStart(position) + PAGE)
    ensures forall k: nat {:trigger IsPlayersFirst(docs, key, k)} :: IsPlayersFirst(docs, key, k) ==>
              position == Count(docs, (d: Doc) => d.SongDoc? && d.song == key.song && d.role == key.role
                                                  && (pids.Some? ==> d.pid in pids.value) && d.score > docs[k].score)
    ensures (forall k: nat :: !IsPlayersFirst(docs, key, k)) ==> position == 0
    ensures var start := position - position % 19;
            && |rows| == (if |board| <= start then 0 else if |board| < start + 19 then |board| - start else 19)
            && ShowsRange(rows, docs, board, key.song, key.role, pids, start)
  {
    var k := IndexOf(docs, key);
    var playerScore := 0;
    if k < |docs| {
      playerScore := docs[k].score;
    } else if board != [] {
      playerScore := board[0].score;
    }
    rows, position := ShowPage(docs, board, key, pids, playerScore);
    PageAt(docs, board, key, pids, position, rows);
    PositionCounts(docs, board, key, pids);
  }

  /** What a range request returns: a range downwards asks for a single batch, and an empty one for all that is left. */
  lemma RangeIs(docs: seq<Doc>, board: seq<Doc>, song: int, role: int, startRank: int, endRank: int, rows: seq<Row>)
    requires IsSorted(board, Filter(docs, OnBoard(song, role, None))) && 1 <= startRank
    requires rows == Slice(Ranked(board), startRank - 1, startRank - 1 + Returned(board, endRank - startRank + 1))
    ensures ShowsRange(rows, docs, board, song, role, None, startRank - 1)
    ensures startRank <= endRank ==> rows == Slice(Ranked(board), startRank - 1, endRank)
    ensures |rows| == NatMin(RowsAsked(|board|, startRank, endRank), |board| - (startRank - 1))
  {
    RangeRows(docs, board, song, role, None, startRank - 1,
              startRank - 1 + Returned(board, endRank - startRank + 1), rows);
  }

  /** How many rows a range asks for on a board of this size. */
  function RowsAsked(size: nat, startRank: int, endRank: int): int {
    if startRank <= endRank then endRank - startRank + 1
    else if endRank == startRank - 1 then size
    else if startRank - 1 - endRank <= 101 then startRank - 1 - endRank
    else 101
  }

  /** The smaller of two numbers, and 0 if one is negative. */
  function NatMin(a: int, b: int): nat {
    if a < 0 || b < 0 then 0 else if a < b then a else b
  }

  /** leaderboards/rankrange/get for one song; None is the empty response after a database error. */
  method RankRange(docs: seq<Doc>, board: seq<Doc>, song: int, role: int, startRank: int, endRank: int)
    returns (r: Option<seq<Row>>)
    requires IsSorted(board, Filter(docs, OnBoard(song, role, None)))
    ensures r.None? <==> startRank < 1
    ensures r.Some? ==> ShowsRange(r.value, docs, board, song, role, None, startRank - 1)
    ensures r.Some? ==> |r.value| == NatMin(RowsAsked(|board|, startRank, endRank), |board| - (startRank - 1))
    ensures 1 <= startRank <= endRank ==> r.value == Slice(Ranked(board), startRank - 1, endRank)
  {
    var page := FindPage(board, startRank - 1, endRank - startRank + 1);
    if page.None? {
      return None;
    }
    var rows := BuildRows(page.value, startRank - 1);
    PageRows(board, startRank - 1, Returned(board, endRank - startRank + 1), page.value, rows);
    RangeIs(docs, board, song, role, startRank, endRank, rows);
    r := Some(rows);
  }

  /** leaderboards/maxrank/get for one song. */
  method MaxRank(docs: seq<Doc>, song: int, role: int) returns (n: nat)
    ensures n == |Filter(docs, OnBoard(song, role, None))|
    ensures n == Count(docs, (d: Doc) => d.SongDoc? && d.song == song && d.role == role)
  {
    n := Count(docs, OnBoard(song, role, None));
    CountIsFilterLength(docs, OnBoard(song, role, None));
    CountAgree(docs, OnBoard(song, role, None), (d: Doc) => d.SongDoc? && d.song == song && d.role == role);
  }

  /** The player's score for a song, or 0. */
  function ScoreOrZero(docs: seq<Doc>, key: Key): int {
    if docs == [] then 0
    else
      var d := docs[|docs| - 1];
      if HasKey(key)(d) then d.score else ScoreOrZero(docs[..|docs| - 1], key)
  }

  /** `k` is the player's last document for a song and role. */
  predicate IsPlayersLast(docs: seq<Doc>, key: Key, k: nat) {
    && k < |docs| && docs[k].SongDoc?
    && docs[k].song == key.song && docs[k].pid == key.pid && docs[k].role == key.role
    && forall i :: k < i < |docs| && docs[i].SongDoc? && docs[i].song == key.song && docs[i].role == key.role ==>
         docs[i].pid != key.pid
  }

  lemma {:induction false} ScoreOrZeroIs(docs: seq<Doc>, key: Key)
    ensures forall k: nat :: IsPlayersLast(docs, key, k) ==> ScoreOrZero(docs, key) == docs[k].score
    ensures (forall k: nat :: !IsPlayersLast(docs, key, k)) ==> ScoreOrZero(docs, key) == 0
  {
    if docs == [] {
    } else {
      var n := |docs| - 1;
      ScoreOrZeroIs(docs[..n], key);
      if HasKey(key)(docs[n]) {
        assert IsPlayersLast(docs, key, n);
      } else {
        assert forall k: nat :: IsPlayersLast(docs, key, k) <==> IsPlayersLast(docs[..n], key, k);
      }
    }
  }

  /** The rank of a player: one more than the number of scores of the song and role above the player's, or above 0. */
  ghost predicate IsRankOf(rank: int, docs: seq<Doc>, key: Key) {
    && (forall k: nat {:trigger IsPlayersLast(docs, key, k)} :: IsPlayersLast(docs, key, k) ==>
          rank == HigherScores(docs, key.song, key.role, docs[k].score) + 1)
    && ((forall k: nat :: !IsPlayersLast(docs, key, k)) ==> rank == HigherScores(docs, key.song, key.role, 0) + 1)
  }

  /** The number of documents of a song and role with a higher score. */
  ghost function HigherScores(docs: seq<Doc>, song: int, role: int, score: int): nat {
    var higher := set i | 0 <= i < |docs| && docs[i].SongDoc? && docs[i].song == song && docs[i].role == role
                          && docs[i].score > score;
    |higher|
  }

  lemma RankCounts(docs: seq<Doc>, key: Key)
    ensures IsRankOf(Count(docs, Above(key.song, key.role, ScoreOrZero(docs, key))) + 1, docs, key)
  {
    var score := ScoreOrZero(docs, key);
    ScoreOrZeroIs(docs, key);
    CountIndices(docs, Above(key.song, key.role, score));
    assert Satisfying(docs, Above(key.song, key.role, score))
        == set i | 0 <= i < |docs| && docs[i].SongDoc? && docs[i].song == key.song && docs[i].role == key.role
                   && docs[i].score > score;
  }

  /** leaderboards/playerranks/get: one rank for every song asked for. */
  method PlayerRanks(docs: seq<Doc>, pid: int, role: int, songs: seq<int>) returns (ranks: seq<int>)
    ensures |ranks| == |songs|
    ensures forall i :: 0 <= i < |songs| ==>
      ranks[i] == Count(docs, Above(songs[i], role, ScoreOrZero(docs, Key(songs[i], pid, role)))) + 1
    ensures forall i :: 0 <= i < |songs| ==> IsRankOf(ranks[i], docs, Key(songs[i], pid, role))
  {
    var playerScores: map<int, int> := map[];
    for i := 0 to |docs|
      invariant forall song :: song in songs ==>
        (if song in playerScores then playerScores[song] else 0) == ScoreOrZero(docs[..i], Key(song, pid, role))
    {
      assert docs[..i + 1][..i] == docs[..i];
      var d := docs[i];
      if d.SongDoc? && d.pid == pid && d.role == role && d.song in songs {
        playerScores := playerScores[d.song := d.score];
      }
    }
    assert docs[..|docs|] == docs;
    ranks := [];
    for i := 0 to |songs|
      invariant |ranks| == i
      invariant forall j :: 0 <= j < i ==>
        ranks[j] == Count(docs, Above(songs[j], role, ScoreOrZero(docs, Key(songs[j], pid, role)))) + 1
    {
      var id := songs[i];
      var playerScore := if id in playerScores then playerScores[id] else 0;
      ranks := ranks + [Count(docs, Above(id, role, playerScore)) + 1];
    }
    forall i | 0 <= i < |songs|
      ensures IsRankOf(ranks[i], docs, Key(songs[i], pid, role))
    {
      RankCounts(docs, Key(songs[i], pid, role));
    }
  }

  // ---------- ranking by counting is ranking by sorting ----------

  lemma {:induction false} HigherAreFirst(board: seq<Doc>, score: int, i: nat)
    requires Descending(board) && i < |board|
    ensures board[i].score > score <==> i < Count(board, Higher(score))
  {
    var k := |board| - 1;
    if i < k {
      HigherAreFirst(board[..k], score, i);
      if board[k].score > score {
        assert board[i].score >= board[k].score;
      }
    } else if board[k].score > score {
      CountAll(board, Higher(score));
    }
  }

  lemma {:induction false} CountAll(board: seq<Doc>, p: Doc -> bool)
    requires forall d :: d in board ==> p(d)
    ensures Count(board, p) == |board|
  {
    if board == [] {
    } else {
      assert board[|board| - 1] in board;
      CountAll(board[..|board| - 1], p);
    }
  }

  lemma {:induction false} CountFiltered(docs: seq<Doc>, p: Doc -> bool, q: Doc -> bool, both: Doc -> bool)
    requires forall d :: both(d) <==> p(d) && q(d)
    ensures Count(Filter(docs, p), q) == Count(docs, both)
  {
    if docs == [] {
    } else {
      var k := |docs| - 1;
      CountFiltered(docs[..k], p, q, both);
      CountConcat(Filter(docs[..k], p), if p(docs[k]) then [docs[k]] else [], q);
    }
  }

  lemma PositionOnBoard(docs: seq<Doc>, board: seq<Doc>, song: int, role: int, pids: Option<set<int>>, score: int)
    requires IsSorted(board, Filter(docs, OnBoard(song, role, pids)))
    ensures Count(docs, HigherOnBoard(song, role, pids, score)) == Count(board, Higher(score))
  {
    CountFiltered(docs, OnBoard(song, role, pids), Higher(score), HigherOnBoard(song, role, pids, score));
    CountPermutation(Filter(docs, OnBoard(song, role, pids)), board, Higher(score));
  }

  /**
   * The number of strictly higher scores is the first sorted position with that score, for any order of ties, exactly
   * when the board has the score at all.
   */
  lemma CountingIsSorting(docs: seq<Doc>, board: seq<Doc>, song: int, role: int, pids: Option<set<int>>, score: int)
    requires IsSorted(board, Filter(docs, OnBoard(song, role, pids)))
    ensures var p := Count(docs, HigherOnBoard(song, role, pids, score));
            && (p < |board| && board[p].score == score <==> exists d :: d in board && d.score == score)
            && forall i :: 0 <= i < |board| ==> (i < p <==> board[i].score > score)
  {
    PositionOnBoard(docs, board, song, role, pids, score);
    var p := Count(board, Higher(score));
    forall i | 0 <= i < |board|
      ensures i < p <==> board[i].score > score
    {
      HigherAreFirst(board, score, i);
    }
    if exists d :: d in board && d.score == score {
      var i :| 0 <= i < |board| && board[i].score == score;
      assert i >= p && board[p].score >= board[i].score;
    }
  }

  /** Without a filter, or with one that has the player in it, the score a page is centred on is on the board. */
  lemma CentreIsOnBoard(docs: seq<Doc>, board: seq<Doc>, key: Key, pids: Option<set<int>>)
    requires IsSorted(board, Filter(docs, OnBoard(key.song, key.role, pids))) && board != []
    requires pids.Some? ==> key.pid in pids.value || IndexOf(docs, key) == |docs|
    ensures exists d :: d in board && d.score == CentreScore(docs, board, key)
  {
    var k := IndexOf(docs, key);
    if k < |docs| {
      FilterMembers(docs, OnBoard(key.song, key.role, pids));
      assert docs[k] in Filter(docs, OnBoard(key.song, key.role, pids));
      assert docs[k] in multiset(board);
    } else {
      assert board[0] in board;
    }
  }

  predicate ShowsRow(rows: seq<Row>, rank: int, score: int) {
    exists i :: 0 <= i < |rows| && rows[i].rank == rank && rows[i].score == score
  }

  lemma PageShows(board: seq<Doc>, p: nat)
    requires p < |board|
    ensures ShowsRow(Slice(Ranked(board), PageStart(p), PageStart(p) + PAGE), p + 1, board[p].score)
  {
    var start := PageStart(p);
    var rows := Slice(Ranked(board), start, start + PAGE);
    assert rows[p - start] == RowAt(board, p);
  }

  /**
   * In the unfiltered and the friends mode (friends include the player) the page of a non-empty board shows, at rank
   * `position + 1`, the player's score, or the top one if the player has none; no row before it is as low.
   */
  lemma PageShowsPlayer(docs: seq<Doc>, board: seq<Doc>, key: Key, pids: Option<set<int>>)
    requires IsSorted(board, Filter(docs, OnBoard(key.song, key.role, pids))) && board != []
    requires pids.Some? ==> key.pid in pids.value || IndexOf(docs, key) == |docs|
    ensures var score := CentreScore(docs, board, key);
            var p := Count(docs, HigherOnBoard(key.song, key.role, pids, score));
            && ShowsRow(Slice(Ranked(board), PageStart(p), PageStart(p) + PAGE), p + 1, score)
            && forall i :: 0 <= i < |board| ==> (i < p <==> board[i].score > score)
  {
    var p := CentreRank(docs, board, key, pids);
    PageShows(board, p);
  }

  lemma CentreRank(docs: seq<Doc>, board: seq<Doc>, key: Key, pids: Option<set<int>>) returns (p: nat)
    requires IsSorted(board, Filter(docs, OnBoard(key.song, key.role, pids))) && board != []
    requires pids.Some? ==> key.pid in pids.value || IndexOf(docs, key) == |docs|
    ensures p == Count(docs, HigherOnBoard(key.song, key.role, pids, CentreScore(docs, board, key)))
    ensures p < |board| && board[p].score == CentreScore(docs, board, key)
    ensures forall i :: 0 <= i < |board| ==> (i < p <==> board[i].score > CentreScore(docs, board, key))
  {
    var score := CentreScore(docs, board, key);
    CentreIsOnBoard(docs, board, key, pids);
    CountingIsSorting(docs, board, key.song, key.role, pids, score);
    p := Count(docs, HigherOnBoard(key.song, key.role, pids, score));
  }

  // ---------- ranges ----------

  lemma SliceConcat<T>(s: seq<T>, a: nat, b: nat, c: nat)
    requires a <= b <= c
    ensures Slice(s, a, b) + Slice(s, b, c) == Slice(s, a, c)
  {
  }

  /** The ranges between consecutive cuts, one after the other. */
  function Ranges<T>(s: seq<T>, cuts: seq<nat>): seq<T>
    requires forall i, j :: 0 <= i < j < |cuts| ==> cuts[i] <= cuts[j]
  {
    if |cuts| < 2 then []
    else Ranges(s, cuts[..|cuts| - 1]) + Slice(s, cuts[|cuts| - 2], cuts[|cuts| - 1])
  }

  /** Consecutive ranges that start at rank 1 and reach the end are the whole board, with ranks 1 to n. */
  lemma {:induction false} RangesAreTheBoard<T>(s: seq<T>, cuts: seq<nat>)
    requires forall i, j :: 0 <= i < j < |cuts| ==> cuts[i] <= cuts[j]
    requires |cuts| >= 1 && cuts[0] == 0
    ensures Ranges(s, cuts) == Slice(s, 0, cuts[|cuts| - 1])
    ensures cuts[|cuts| - 1] >= |s| ==> Ranges(s, cuts) == s
  {
    var k := |cuts| - 1;
    if k == 0 {
    } else {
      RangesAreTheBoard(s, cuts[..k]);
      SliceConcat(s, 0, cuts[k - 1], cuts[k]);
    }
  }

  // ---------- the three ranks of a player ----------

  lemma {:induction false} ScoreOfOnlyDoc(docs: seq<Doc>, key: Key, d: Doc)
    requires d in docs && HasKey(key)(d) && Count(docs, HasKey(key)) == 1
    ensures ScoreOrZero(docs, key) == d.score
  {
    var k := |docs| - 1;
    if HasKey(key)(docs[k]) {
      CountOne(docs, HasKey(key), d, docs[k]);
    } else {
      ScoreOfOnlyDoc(docs[..k], key, d);
    }
  }

  lemma {:induction false} HigherIsAbove(docs: seq<Doc>, song: int, role: int, score: int)
    ensures Count(docs, HigherOnBoard(song, role, None, score)) == Count(docs, Above(song, role, score))
  {
    if docs == [] {
    } else {
      HigherIsAbove(docs[..|docs| - 1], song, role, score);
      assert HigherOnBoard(song, role, None, score)(docs[|docs| - 1]) <==> Above(song, role, score)(docs[|docs| - 1]);
    }
  }

  /** In every reachable collection a player's page and playerranks agree on the player's rank. */
  lemma PlayerRanksAgree(ops: seq<Op>, board: seq<Doc>, key: Key, d: Doc)
    requires d in After(ops).docs && HasKey(key)(d)
    ensures var docs := After(ops).docs;
            && CentreScore(docs, board, key) == ScoreOrZero(docs, key) == d.score
            && Count(docs, HigherOnBoard(key.song, key.role, None, d.score))
               == Count(docs, Above(key.song, key.role, ScoreOrZero(docs, key)))
  {
    var docs := After(ops).docs;
    RunRepresents(ops, key);
    CountNone(docs, HasKey(key));
    var k := IndexOf(docs, key);
    assert docs[k] in docs;
    CountOne(docs, HasKey(key), d, docs[k]);
    ScoreOfOnlyDoc(docs, key, d);
    HigherIsAbove(docs, key.song, key.role, d.score);
  }

  /**
   * A player without a score gets the page of rank 1, but from playerranks a rank behind every score of the board: the
   * two agree only on an empty board.
   */
  lemma PlayerRanksWithoutScore(ops: seq<Op>, board: seq<Doc>, key: Key)
    requires Count(After(ops).docs, HasKey(key)) == 0
    requires IsSorted(board, Filter(After(ops).docs, OnBoard(key.song, key.role, None)))
    ensures var docs := After(ops).docs;
            && Count(docs, HigherOnBoard(key.song, key.role, None, CentreScore(docs, board, key))) == 0
            && Count(docs, Above(key.song, key.role, ScoreOrZero(docs, key))) == |board|
  {
    var docs := After(ops).docs;
    CountNone(docs, HasKey(key));
    NoScoreIsZero(docs, key);
    NothingAboveTop(docs, board, key, None);
    StoredIsPositive(ops);
    AllAbove(docs, key.song, key.role, 0);
    CountIsFilterLength(docs, OnBoard(key.song, key.role, None));
    assert |board| == |multiset(board)| == |Filter(docs, OnBoard(key.song, key.role, None))|;
  }

  lemma {:induction false} NoScoreIsZero(docs: seq<Doc>, key: Key)
    requires forall d :: d in docs ==> !HasKey(key)(d)
    ensures ScoreOrZero(docs, key) == 0
  {
    if docs == [] {
    } else {
      assert docs[|docs| - 1] in docs;
      NoScoreIsZero(docs[..|docs| - 1], key);
    }
  }

  lemma NothingAboveTop(docs: seq<Doc>, board: seq<Doc>, key: Key, pids: Option<set<int>>)
    requires IsSorted(board, Filter(docs, OnBoard(key.song, key.role, pids)))
    requires IndexOf(docs, key) == |docs|
    ensures Count(docs, HigherOnBoard(key.song, key.role, pids, CentreScore(docs, board, key))) == 0
  {
    var score := CentreScore(docs, board, key);
    PositionOnBoard(docs, board, key.song, key.role, pids, score);
    CountNone(board, Higher(score));
  }

  /** Only positive scores are recorded. */
  lemma StoredIsPositive(ops: seq<Op>)
    ensures forall d :: d in After(ops).docs && d.SongDoc? ==> d.score > 0
  {
    forall d | d in After(ops).docs && d.SongDoc?
      ensures d.score > 0
    {
      var key := Key(d.song, d.pid, d.role);
      RunRepresents(ops, key);
      BestIsAccepted(ops, key);
      assert HasKey(key)(d);
    }
  }

  lemma {:induction false} AllAbove(docs: seq<Doc>, song: int, role: int, score: int)
    requires forall d :: d in docs && d.SongDoc? ==> d.score > score
    ensures Count(docs, Above(song, role, score)) == Count(docs, OnBoard(song, role, None))
  {
    if docs == [] {
    } else {
      assert docs[|docs| - 1] in docs;
      AllAbove(docs[..|docs| - 1], song, role, score);
    }
  }

  /** A later part of the request improves on part `i`. */
  predicate Overtaken(req: Request, i: nat, n: nat)
    requires Complete(req) && i < n <= |req.pids|
  {
    exists j :: i < j < n && KeyOf(Part(req, j)) == KeyOf(Part(req, i)) && Acceptable(Part(req, j))
                && req.scores[j] > req.scores[i]
  }

  lemma ImprovementIsStored(b: Board, s: Submission, before: Option<Submission>)
    requires Represents(b.docs, KeyOf(s), before) && IsAccepted(before, KeyOf(s)) && IsImprovement(b.docs, s)
    ensures Represents(Submitted(b, s).docs, KeyOf(s), Some(s))
  {
    var k := IndexOf(b.docs, KeyOf(s));
    SubmitRepresents(b, s, KeyOf(s), before);
    if k < |b.docs| {
      assert b.docs[k] in b.docs;
    } else {
      CountNone(b.docs, HasKey(KeyOf(s)));
    }
  }

  lemma OvertakenByLast(req: Request, i: nat, n: nat)
    requires Complete(req) && i < n < |req.pids|
    ensures Overtaken(req, i, n + 1)
            <==> Overtaken(req, i, n)
                 || (KeyOf(Part(req, n)) == KeyOf(Part(req, i)) && Acceptable(Part(req, n))
                     && req.scores[n] > req.scores[i])
  {
  }

  /** The board holds an acceptable submission of the key, and it scores `floor` exactly while nothing overtook that. */
  ghost predicate Holds(b: Board, key: Key, last: Submission, floor: int, overtaken: bool) {
    && Represents(b.docs, key, Some(last)) && IsAccepted(Some(last), key)
    && last.score >= floor && (last.score == floor <==> !overtaken)
  }

  lemma HoldsStep(b: Board, key: Key, before: Submission, floor: int, overtaken: bool, s: Submission)
    requires Holds(b, key, before, floor, overtaken)
    ensures Holds(Submitted(b, s), key, Better(Some(before), s, key).value, floor,
                  overtaken || (KeyOf(s) == key && Acceptable(s) && s.score > floor))
  {
    SubmitRepresents(b, s, key, Some(before));
  }

  /** After a new best, the request's board keeps that part's document until a later part overtakes it. */
  lemma {:induction false} StoredAfter(b: Board, req: Request, i: nat, n: nat, best: Option<Submission>)
    returns (last: Submission)
    requires Complete(req) && i < n <= |req.pids|
    requires var key := KeyOf(Part(req, i)); Represents(b.docs, key, best) && IsAccepted(best, key)
    requires WasImprovement(b, req, i)
    ensures Holds(Recorded(b, req, n), KeyOf(Part(req, i)), last, req.scores[i], Overtaken(req, i, n))
    decreases n
  {
    var key := KeyOf(Part(req, i));
    if n == i + 1 {
      var before := RecordedRepresents(b, req, i, key, best);
      last := Part(req, i);
      HoldsAtFirst(b, req, i, before);
    } else {
      var m := n - 1;
      var before := StoredAfter(b, req, i, m, best);
      HoldsStep(Recorded(b, req, m), key, before, req.scores[i], Overtaken(req, i, m), Part(req, m));
      OvertakenByLast(req, i, m);
      last := Better(Some(before), Part(req, m), key).value;
      assert Recorded(b, req, n) == Submitted(Recorded(b, req, m), Part(req, m));
    }
  }

  lemma HoldsAtFirst(b: Board, req: Request, i: nat, before: Option<Submission>)
    requires Complete(req) && i < |req.pids| && WasImprovement(b, req, i)
    requires Represents(Recorded(b, req, i).docs, KeyOf(Part(req, i)), before)
    requires IsAccepted(before, KeyOf(Part(req, i)))
    ensures Holds(Recorded(b, req, i + 1), KeyOf(Part(req, i)), Part(req, i), req.scores[i], Overtaken(req, i, i + 1))
  {
    ImprovementIsStored(Recorded(b, req, i), Part(req, i), before);
    assert !Overtaken(req, i, i + 1);
  }

  lemma {:induction false} RecordedRepresents(b: Board, req: Request, n: nat, key: Key, best: Option<Submission>)
    returns (now: Option<Submission>)
    requires Complete(req) && n <= |req.pids|
    requires Represents(b.docs, key, best) && IsAccepted(best, key)
    ensures Represents(Recorded(b, req, n).docs, key, now) && IsAccepted(now, key)
    decreases n
  {
    if n == 0 {
      now := best;
    } else {
      now := RecordedRepresents(b, req, n - 1, key, best);
      SubmitRepresents(Recorded(b, req, n - 1), Part(req, n - 1), key, now);
      now := Better(now, Part(req, n - 1), key);
    }
  }

  /** Raising the bar to a document's own score leaves that document out of the count. */
  lemma {:induction false} HigherBarCountsLess(docs: seq<Doc>, d: Doc, score: int)
    requires d in docs && d.SongDoc? && score < d.score
    ensures Count(docs, Above(d.song, d.role, d.score)) < Count(docs, Above(d.song, d.role, score))
  {
    var k := |docs| - 1;
    CountFewer(docs[..k], d, score);
    if docs[k] != d {
      assert d in docs[..k];
      HigherBarCountsLess(docs[..k], d, score);
    }
  }

  lemma {:induction false} CountFewer(docs: seq<Doc>, d: Doc, score: int)
    requires d.SongDoc? && score < d.score
    ensures Count(docs, Above(d.song, d.role, d.score)) <= Count(docs, Above(d.song, d.role, score))
  {
    if docs == [] {
    } else {
      CountFewer(docs[..|docs| - 1], d, score);
    }
  }

  /**
   * The rank a new best is told is the rank that playerranks gives for the player's stored score if and only if no
   * later part of the same request overtakes it.
   */
  lemma InstaRankAgrees(ops: seq<Op>, req: Request, i: nat, d: Doc, nameOf: int -> string, r: InstaRank)
    requires Complete(req) && i < |req.pids| && WasImprovement(After(ops), req, i)
    requires var docs := Recorded(After(ops), req, |req.pids|).docs;
             && d in docs && HasKey(KeyOf(Part(req, i)))(d)
             && IsInstaRank(docs, req, i, true, ToldScore(After(ops), req, i), nameOf, r)
    ensures var docs, key := Recorded(After(ops), req, |req.pids|).docs, KeyOf(Part(req, i));
            && ScoreOrZero(docs, key) == d.score
            && (d.score == req.scores[i] <==> !Overtaken(req, i, |req.pids|))
            && (r.rank == Count(docs, Above(key.song, key.role, ScoreOrZero(docs, key))) + 1
                <==> !Overtaken(req, i, |req.pids|))
  {
    var key := KeyOf(Part(req, i));
    var docs := Recorded(After(ops), req, |req.pids|).docs;
    RunRepresents(ops, key);
    BestIsAccepted(ops, key);
    var last := StoredAfter(After(ops), req, i, |req.pids|, BestOf(ops, key));
    ScoreOfOnlyDoc(docs, key, d);
    if d.score != req.scores[i] {
      HigherBarCountsLess(docs, d, req.scores[i]);
    }
  }

  lemma BestIsAccepted(ops: seq<Op>, key: Key)
    ensures IsAccepted(BestOf(ops, key), key)
  {
  }

  /** One player's two acceptable scores for one song and role, the better one last. */
  predicate IsTwice(req: Request) {
    && req.pids == [1, 1] && req.roles == [0, 0] && req.scores == [100, 200] && req.stars == [5, 5]
    && req.slots == [0, 1] && req.diffs == [3, 3] && req.percents == [90, 95]
  }

  /** The first of the two is told rank 2, although the stored score is the only one of its song. */
  lemma InstaRankCanDiffer(req: Request, nameOf: int -> string, r: InstaRank)
    requires IsTwice(req) && IsInstaRank(Recorded(After([]), req, 2).docs, req, 0, true, 100, nameOf, r)
    ensures WasImprovement(After([]), req, 0) && ToldScore(After([]), req, 0) == 100
    ensures var docs := Recorded(After([]), req, 2).docs;
            r.rank == 2 && Count(docs, Above(req.song, 0, ScoreOrZero(docs, Key(req.song, 1, 0)))) + 1 == 1
  {
    var b0 := After([]);
    var first, second := Part(req, 0), Part(req, 1);
    var b1 := Submitted(b0, first);
    assert Recorded(b0, req, 0) == b0;
    assert b1.docs == [DocOf(first, 0)];
    assert Recorded(b0, req, 1) == b1;
    var b2 := Submitted(b1, second);
    assert b2.docs == [DocOf(second, 0)];
    assert Recorded(b0, req, 2) == b2;
    assert b2.docs[..0] == [];
  }
}
