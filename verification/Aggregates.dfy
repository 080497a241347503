/** The total-score leaderboards: one row per player, made by grouping and summing. */
module Aggregates {
  import opened Options
  import opened Seqs
  import opened Scores
  import opened Leaderboards

  datatype Total = Total(pid: int, total: int)

  const TOTAL_SCORE := 1
  const RB3_ONLY := 2

  // ---------- the aggregation ----------

  /** The match stage; an empty set of PIDs is not turned into a filter. Battle scores have no role and never match. */
  function Counted(lbType: int, role: int, pids: set<int>): Doc -> bool {
    (d: Doc) =>
      && d.SongDoc? && d.role == role
      && (lbType == RB3_ONLY ==> 1001 <= d.song <= 1106)
      && (pids != {} ==> d.pid in pids)
  }

  /** Every song's scores of a role, or only those of songs 1001 to 1106; of these PIDs, if there are any. */
  lemma CountedAre(docs: seq<Doc>, lbType: int, role: int, pids: set<int>)
    ensures Filter(docs, Counted(lbType, role, pids))
         == Filter(docs, (d: Doc) => d.SongDoc? && d.role == role && (lbType == 2 ==> 1001 <= d.song <= 1106)
                                     && (pids == {} || d.pid in pids))
  {
    FilterAgree(docs, Counted(lbType, role, pids),
      (d: Doc) => d.SongDoc? && d.role == role && (lbType == 2 ==> 1001 <= d.song <= 1106)
                  && (pids == {} || d.pid in pids));
  }

  function OfPid(pid: int): Doc -> bool {
    (d: Doc) => d.pid == pid
  }

  function OfOther(pid: int): Doc -> bool {
    (d: Doc) => d.pid != pid
  }

  function ScoreOf(): Doc -> int {
    (d: Doc) => d.score
  }

  function TotalOf(): Total -> int {
    (t: Total) => t.total
  }

  function Pids(found: seq<Doc>): set<int> {
    set d | d in found :: d.pid
  }

  function TotalPids(totals: seq<Total>): set<int> {
    set t | t in totals :: t.pid
  }

  /** The result of the group stage, in any order. */
  ghost predicate IsGrouping(totals: seq<Total>, found: seq<Doc>) {
    && (forall i, j :: 0 <= i < j < |totals| ==> totals[i].pid != totals[j].pid)
    && TotalPids(totals) == Pids(found)
    && forall i :: 0 <= i < |totals| ==> totals[i].total == Sum(Filter(found, OfPid(totals[i].pid)), ScoreOf())
  }

  /** The result of the whole pipeline: grouped, then sorted by total with any order of ties. */
  ghost predicate IsAggregated(totals: seq<Total>, found: seq<Doc>) {
    IsGrouping(totals, found) && forall i, j :: 0 <= i < j < |totals| ==> totals[i].total >= totals[j].total
  }

  function TotalRow(totals: seq<Total>, i: nat): Row
    requires i < |totals|
  {
    Row(totals[i].pid, i + 1, totals[i].total, 0, 0, 0)
  }

  function RankedTotals(totals: seq<Total>): (rows: seq<Row>)
    ensures |rows| == |totals|
  {
    seq(|totals|, i requires 0 <= i < |totals| => TotalRow(totals, i))
  }

  // ---------- the services ----------

  method BuildTotalRows(page: seq<Total>, skipped: int) returns (rows: seq<Row>)
    ensures |rows| == |page|
    ensures forall i :: 0 <= i < |page| ==> rows[i] == TotalRow(page, i).(rank := skipped + i + 1)
  {
    rows := [];
    var idx := skipped + 1;
    for i := 0 to |page|
      invariant |rows| == i && idx == skipped + i + 1
      invariant forall j :: 0 <= j < i ==> rows[j] == TotalRow(page, j).(rank := skipped + j + 1)
    {
      rows := rows + [Row(page[i].pid, idx, page[i].total, 0, 0, 0)];
      idx := idx + 1;
    }
  }

  lemma TotalPageRows(totals: seq<Total>, skip: nat, limit: nat, rows: seq<Row>)
    requires var page := Slice(totals, skip, skip + limit);
             |rows| == |page| && forall i :: 0 <= i < |page| ==> rows[i] == TotalRow(page, i).(rank := skip + i + 1)
    ensures rows == Slice(RankedTotals(totals), skip, skip + limit)
  {
    var page := Slice(totals, skip, skip + limit);
    forall i | 0 <= i < |page|
      ensures rows[i] == TotalRow(totals, skip + i)
    {
      assert page[i] == totals[skip + i];
    }
  }

  predicate HasPid(rows: seq<Row>, pid: int) {
    exists i :: 0 <= i < |rows| && rows[i].pid == pid
  }

  method FindPlayer(totals: seq<Total>, pid: int) returns (playerRank: int)
    ensures playerRank == -1 ==> forall j :: 0 <= j < |totals| ==> totals[j].pid != pid
    ensures playerRank != -1 ==> 0 <= playerRank < |totals| && totals[playerRank].pid == pid
  {
    for i := 0 to |totals|
      invariant forall j :: 0 <= j < i ==> totals[j].pid != pid
    {
      if totals[i].pid == pid {
        return i;
      }
    }
    return -1;
  }

  method PageFrom(totals: seq<Total>, start: nat) returns (rows: seq<Row>)
    ensures rows == Slice(RankedTotals(totals), start, start + PAGE)
  {
    var endIdx := start + PAGE;
    if endIdx > |totals| {
      endIdx := |totals|;
    }
    var startIdx := start;
    if startIdx > |totals| {
      startIdx := |totals|;
    }
    rows := BuildTotalRows(totals[startIdx..endIdx], start);
    TotalPageRows(totals, start, PAGE, rows);
  }

  lemma OnTotalPage(totals: seq<Total>, rank: nat, pid: int)
    requires rank < |totals| && totals[rank].pid == pid
    ensures HasPid(Slice(RankedTotals(totals), PageStart(rank), PageStart(rank) + PAGE), pid)
  {
    var start := PageStart(rank);
    assert Slice(RankedTotals(totals), start, start + PAGE)[rank - start].pid == pid;
  }

  lemma OnlyMatchedPids(totals: seq<Total>, found: seq<Doc>, pid: int, start: nat)
    requires IsGrouping(totals, found) && HasPid(Slice(RankedTotals(totals), start, start + PAGE), pid)
    ensures pid in Pids(found)
  {
    var rows := Slice(RankedTotals(totals), start, start + PAGE);
    var i :| 0 <= i < |rows| && rows[i].pid == pid;
    assert rows[i] == TotalRow(totals, start + i);
    assert totals[start + i] in totals && totals[start + i].pid in TotalPids(totals);
  }

  predicate IsRankOf(totals: seq<Total>, pid: int, rank: int) {
    if 0 <= rank < |totals| && totals[rank].pid == pid then true
    else rank == 0 && forall j :: 0 <= j < |totals| ==> totals[j].pid != pid
  }

  lemma PageHasPidIff(totals: seq<Total>, found: seq<Doc>, pid: int, rank: nat)
    requires IsGrouping(totals, found) && IsRankOf(totals, pid, rank)
    ensures HasPid(Slice(RankedTotals(totals), PageStart(rank), PageStart(rank) + PAGE), pid) <==> pid in Pids(found)
    ensures pid !in Pids(found) ==> rank == 0
  {
    var start := PageStart(rank);
    if rank < |totals| && totals[rank].pid == pid {
      OnTotalPage(totals, rank, pid);
      assert totals[rank] in totals;
    } else {
      assert pid !in TotalPids(totals);
      if HasPid(Slice(RankedTotals(totals), start, start + PAGE), pid) {
        OnlyMatchedPids(totals, found, pid, start);
      }
    }
  }

  /** Each row has the rank of its place and the sum of the player's scores; together they are that range of ranks. */
  ghost predicate AreRowsFrom(rows: seq<Row>, totals: seq<Total>, found: seq<Doc>, start: nat) {
    forall i :: 0 <= i < |rows| ==>
      && start + i < |totals| && rows[i].pid == totals[start + i].pid && rows[i].rank == start + i + 1
      && rows[i].score == Sum(Filter(found, OfPid(rows[i].pid)), ScoreOf())
  }

  lemma RowsOfTotals(totals: seq<Total>, found: seq<Doc>, start: nat, end: nat)
    requires IsGrouping(totals, found) && start <= end
    ensures var rows := Slice(RankedTotals(totals), start, end);
            && |rows| == (if |totals| <= start then 0 else if |totals| < end then |totals| - start else end - start)
            && AreRowsFrom(rows, totals, found, start)
  {
  }

  /** leaderboards/player/get on an aggregated board: a page that has the player's row whenever there is one. */
  method PlayerPage(totals: seq<Total>, found: seq<Doc>, pid: int) returns (rows: seq<Row>, start: nat)
    requires IsAggregated(totals, found)
    ensures start % 19 == 0 && rows == Slice(RankedTotals(totals), start, start + PAGE)
    ensures |rows| == if |totals| <= start then 0 else if |totals| < start + 19 then |totals| - start else 19
    ensures AreRowsFrom(rows, totals, found, start)
    ensures HasPid(rows, pid) <==> pid in Pids(found)
    ensures pid !in Pids(found) ==> start == 0
  {
    var playerRank := FindPlayer(totals, pid);
    if playerRank == -1 {
      playerRank := 0;
    }
    assert IsRankOf(totals, pid, playerRank);
    start := PageStart(playerRank);
    rows := PageFrom(totals, start);
    PageHasPidIff(totals, found, pid, playerRank);
    RowsOfTotals(totals, found, start, start + PAGE);
  }

  /** leaderboards/rankrange/get on an aggregated board: the pipeline refuses a negative skip and a limit below 1. */
  method TotalRange(totals: seq<Total>, found: seq<Doc>, startRank: int, endRank: int) returns (r: Option<seq<Row>>)
    requires IsAggregated(totals, found)
    ensures r.Some? <==> 1 <= startRank <= endRank
    ensures r.Some? ==> r.value == Slice(RankedTotals(totals), startRank - 1, endRank)
    ensures r.Some? ==> AreRowsFrom(r.value, totals, found, startRank - 1)
    ensures 1 <= startRank <= endRank <= |totals| ==> |r.value| == endRank - startRank + 1
  {
    var skip, limit := startRank - 1, endRank - startRank + 1;
    if skip < 0 || limit < 1 {
      return None;
    }
    var page := Slice(totals, skip, skip + limit);
    var rows := BuildTotalRows(page, skip);
    TotalPageRows(totals, skip, limit, rows);
    RowsOfTotals(totals, found, skip, skip + limit);
    r := Some(rows);
  }

  /** leaderboards/maxrank/get on an aggregated board, by distinct PIDs and not by rows. */
  method TotalMaxRank(docs: seq<Doc>, lbType: int, role: int) returns (n: nat)
    ensures lbType == 1 || lbType == 2 ==> n == |Pids(Filter(docs, Counted(lbType, role, {})))|
    ensures lbType == 1 || lbType == 2 ==>
      var pids := set d | d in docs && d.SongDoc? && d.role == role
                          && (lbType == 2 ==> 1001 <= d.song <= 1106) :: d.pid;
      n == |pids|
    ensures lbType != 1 && lbType != 2 ==> n == 0
  {
    if lbType == TOTAL_SCORE || lbType == RB3_ONLY {
      var found := Filter(docs, Counted(lbType, role, {}));
      var groups: set<int> := {};
      for i := 0 to |found|
        invariant groups == Pids(found[..i])
      {
        assert found[..i + 1] == found[..i] + [found[i]];
        groups := groups + {found[i].pid};
      }
      assert found[..|found|] == found;
      n := |groups|;
      FilterMembers(docs, Counted(lbType, role, {}));
      assert Pids(found)
          == set d | d in docs && d.SongDoc? && d.role == role && (lbType == 2 ==> 1001 <= d.song <= 1106) :: d.pid;
    } else {
      n := 0;
    }
  }

  // ---------- agreement ----------

  lemma {:induction false} DistinctPids(totals: seq<Total>)
    requires forall i, j :: 0 <= i < j < |totals| ==> totals[i].pid != totals[j].pid
    ensures |TotalPids(totals)| == |totals|
  {
    if totals == [] {
    } else {
      var k := |totals| - 1;
      DistinctPids(totals[..k]);
      assert totals == totals[..k] + [totals[k]];
      assert TotalPids(totals) == TotalPids(totals[..k]) + {totals[k].pid};
    }
  }

  /** The maximal rank is the number of rows, and so the last rank on the board. */
  lemma MaxRankIsRows(docs: seq<Doc>, totals: seq<Total>, lbType: int, role: int)
    requires IsAggregated(totals, Filter(docs, Counted(lbType, role, {})))
    ensures |Pids(Filter(docs, Counted(lbType, role, {})))| == |totals| == |RankedTotals(totals)|
  {
    DistinctPids(totals);
  }

  /** A player's total is the sum over the player's matched documents, one by one. */
  lemma PlayersSum(found: seq<Doc>, d: Doc, pid: int)
    ensures Sum(Filter([], OfPid(pid)), ScoreOf()) == 0
    ensures Sum(Filter(found + [d], OfPid(pid)), ScoreOf())
         == Sum(Filter(found, OfPid(pid)), ScoreOf()) + if d.pid == pid then d.score else 0
  {
    FilterNext(found + [d], |found|, OfPid(pid));
    assert (found + [d])[..|found|] == found && (found + [d])[..|found| + 1] == found + [d];
    SumAppend(Filter(found, OfPid(pid)), d);
  }

  lemma SumAppend(s: seq<Doc>, d: Doc)
    ensures Sum(s + [d], ScoreOf()) == Sum(s, ScoreOf()) + d.score
  {
    assert (s + [d])[..|s|] == s;
  }

  lemma {:induction false} SumSplits(found: seq<Doc>, pid: int)
    ensures Sum(found, ScoreOf())
         == Sum(Filter(found, OfPid(pid)), ScoreOf()) + Sum(Filter(found, OfOther(pid)), ScoreOf())
  {
    if found == [] {
    } else {
      var k := |found| - 1;
      var own, others := Filter(found[..k], OfPid(pid)), Filter(found[..k], OfOther(pid));
      SumSplits(found[..k], pid);
      SumAppend(own, found[k]);
      SumAppend(others, found[k]);
      if found[k].pid == pid {
        assert Filter(found, OfPid(pid)) == own + [found[k]];
        assert Filter(found, OfOther(pid)) == others + [] == others;
      } else {
        assert Filter(found, OfPid(pid)) == own + [] == own;
        assert Filter(found, OfOther(pid)) == others + [found[k]];
      }
    }
  }

  lemma GroupingWithoutLast(totals: seq<Total>, found: seq<Doc>)
    requires IsGrouping(totals, found) && totals != []
    ensures var k := |totals| - 1; IsGrouping(totals[..k], Filter(found, OfOther(totals[k].pid)))
  {
    var k := |totals| - 1;
    var pid := totals[k].pid;
    var others := Filter(found, OfOther(pid));
    FilterMembers(found, OfOther(pid));
    assert totals == totals[..k] + [totals[k]];
    assert TotalPids(totals[..k]) == TotalPids(totals) - {pid};
    assert Pids(others) == Pids(found) - {pid};
    forall i | 0 <= i < k
      ensures totals[i].total == Sum(Filter(others, OfPid(totals[i].pid)), ScoreOf())
    {
      FilterFilter(found, OfOther(pid), OfPid(totals[i].pid), OfPid(totals[i].pid));
    }
  }

  lemma NoPids(found: seq<Doc>)
    ensures Pids(found) == {} <==> found == []
  {
    if found != [] {
      assert found[0].pid in Pids(found);
    }
  }

  /** Grouping conserves: the totals sum to the sum of all matched scores. */
  lemma {:induction false} TotalsConserve(totals: seq<Total>, found: seq<Doc>)
    requires IsGrouping(totals, found)
    ensures Sum(totals, TotalOf()) == Sum(found, ScoreOf())
    decreases |totals|
  {
    if totals == [] {
      NoPids(found);
    } else {
      var k := |totals| - 1;
      var pid := totals[k].pid;
      GroupingWithoutLast(totals, found);
      TotalsConserve(totals[..k], Filter(found, OfOther(pid)));
      SumSplits(found, pid);
    }
  }

  /** The rows list every matched player once, with the sum of the player's scores, in descending order. */
  ghost predicate ListsEveryPlayerOnce(rows: seq<Row>, found: seq<Doc>) {
    && |rows| == |Pids(found)|
    && (forall i :: 0 <= i < |rows| ==> rows[i].rank == i + 1)
    && (forall i, j :: 0 <= i < j < |rows| ==> rows[i].pid != rows[j].pid && rows[i].score >= rows[j].score)
    && (forall i :: 0 <= i < |rows| ==> rows[i].score == Sum(Filter(found, OfPid(rows[i].pid)), ScoreOf()))
    && (forall pid :: HasPid(rows, pid) <==> pid in Pids(found))
  }

  lemma RankedTotalsListPlayers(totals: seq<Total>, found: seq<Doc>)
    requires IsAggregated(totals, found)
    ensures ListsEveryPlayerOnce(RankedTotals(totals), found)
  {
    var rows := RankedTotals(totals);
    DistinctPids(totals);
    forall pid
      ensures HasPid(rows, pid) <==> pid in Pids(found)
    {
      if HasPid(rows, pid) {
        var i :| 0 <= i < |rows| && rows[i].pid == pid;
        assert totals[i] in totals;
      }
      if pid in TotalPids(totals) {
        var i :| 0 <= i < |totals| && totals[i].pid == pid;
        assert rows[i].pid == pid;
      }
    }
  }

  /** Consecutive ranges from rank 1 to the maximal rank or beyond list every player once. */
  lemma RangesListEveryPlayerOnce(docs: seq<Doc>, totals: seq<Total>, lbType: int, role: int, cuts: seq<nat>)
    requires IsAggregated(totals, Filter(docs, Counted(lbType, role, {})))
    requires forall i, j :: 0 <= i < j < |cuts| ==> cuts[i] <= cuts[j]
    requires |cuts| >= 1 && cuts[0] == 0
    requires cuts[|cuts| - 1] >= |Pids(Filter(docs, Counted(lbType, role, {})))|
    ensures ListsEveryPlayerOnce(Ranges(RankedTotals(totals), cuts), Filter(docs, Counted(lbType, role, {})))
  {
    MaxRankIsRows(docs, totals, lbType, role);
    RangesAreTheBoard(RankedTotals(totals), cuts);
    RankedTotalsListPlayers(totals, Filter(docs, Counted(lbType, role, {})));
  }
}
