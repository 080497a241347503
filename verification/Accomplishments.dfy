/** The accomplishment boards: parallel lists that are updated at an index found in just one of them. */
module Accomplishments {
  import opened Options
  import opened Seqs

  datatype Entry = Entry(pid: int, score: int)

  const BOARDS := 32

  // ---------- alignment ----------

  /** All boards have the same PIDs at the same positions, each once. */
  predicate Aligned(boards: seq<seq<Entry>>) {
    && |boards| == BOARDS
    && (forall b :: 0 <= b < BOARDS ==> |boards[b]| == |boards[0]|)
    && (forall b, i :: 0 <= b < BOARDS && 0 <= i < |boards[0]| ==> boards[b][i].pid == boards[0][i].pid)
    && (forall i, j :: 0 <= i < j < |boards[0]| ==> boards[0][i].pid != boards[0][j].pid)
  }

  /** The scores of one board by PID. */
  function ScoreIn(board: seq<Entry>, pid: int): Option<int> {
    if board == [] then None
    else if board[|board| - 1].pid == pid then Some(board[|board| - 1].score)
    else ScoreIn(board[..|board| - 1], pid)
  }

  lemma {:induction false} ScoreInIff(board: seq<Entry>, pid: int)
    ensures ScoreIn(board, pid).None? <==> forall i :: 0 <= i < |board| ==> board[i].pid != pid
    ensures forall i :: 0 <= i < |board| && board[i].pid == pid && (forall j :: i < j < |board| ==> board[j].pid != pid)
              ==> ScoreIn(board, pid) == Some(board[i].score)
  {
    if board == [] {
    } else {
      ScoreInIff(board[..|board| - 1], pid);
    }
  }

  // ---------- recording ----------

  /** The position of a PID on the first board, or its length. */
  function IndexOf(board: seq<Entry>, pid: int): (k: nat)
    ensures k <= |board|
    ensures k < |board| ==> board[k].pid == pid
    ensures forall i :: 0 <= i < k ==> board[i].pid != pid
  {
    if board == [] || board[0].pid == pid then 0
    else
      var k := IndexOf(board[1..], pid);
      assert forall i :: 1 <= i < k + 1 ==> board[i] == board[1..][i - 1];
      k + 1
  }

  function Recorded(boards: seq<seq<Entry>>, pid: int, values: seq<int>): seq<seq<Entry>>
    requires Aligned(boards) && |values| == BOARDS
  {
    var k := IndexOf(boards[0], pid);
    seq(BOARDS, b requires 0 <= b < BOARDS =>
      if k < |boards[0]| then boards[b][k := boards[b][k].(score := values[b])]
      else boards[b] + [Entry(pid, values[b])])
  }

  // ---------- cleaning up banned users ----------

  function Without(board: seq<Entry>, banned: seq<int>): seq<Entry> {
    if board == [] then []
    else
      var last := board[|board| - 1];
      Without(board[..|board| - 1], banned) + if last.pid in banned then [] else [last]
  }

  function Cleaned(boards: seq<seq<Entry>>, banned: seq<int>): seq<seq<Entry>>
    requires |boards| == BOARDS
  {
    seq(BOARDS, b requires 0 <= b < BOARDS => Without(boards[b], banned))
  }

  // ---------- the document ----------

  class AccomplishmentsDocument {
    var boards: seq<seq<Entry>>

    constructor ()
      ensures Aligned(boards) && boards == Empty()
    {
      boards := seq(BOARDS, _ => []);
    }

    /** accomplishment/record: update at the index found on the first board, or append to every board. */
    method Record(pid: int, values: seq<int>)
      requires Aligned(boards) && |values| == BOARDS
      modifies this
      ensures boards == Recorded(old(boards), pid, values)
    {
      var idx := 0;
      while idx < |boards[0]| && boards[0][idx].pid != pid
        invariant idx <= |boards[0]| && forall i :: 0 <= i < idx ==> boards[0][i].pid != pid
      {
        idx := idx + 1;
      }
      assert idx == IndexOf(boards[0], pid);
      var found := idx < |boards[0]|;
      var b := 0;
      while b < BOARDS
        invariant 0 <= b <= BOARDS && |boards| == BOARDS
        invariant forall c :: 0 <= c < b ==> boards[c] == Recorded(old(boards), pid, values)[c]
        invariant forall c :: b <= c < BOARDS ==> boards[c] == old(boards)[c]
      {
        if found {
          boards := boards[b := boards[b][idx := boards[b][idx].(score := values[b])]];
        } else {
          boards := boards[b := boards[b] + [Entry(pid, values[b])]];
        }
        b := b + 1;
      }
    }

    static method FilterEntries(entries: seq<Entry>, banned: seq<int>) returns (filtered: seq<Entry>)
      ensures filtered == Without(entries, banned)
    {
      filtered := [];
      for i := 0 to |entries|
        invariant filtered == Without(entries[..i], banned)
      {
        assert entries[..i + 1][..i] == entries[..i];
        if entries[i].pid !in banned {
          filtered := filtered + [entries[i]];
        }
      }
      assert entries[..|entries|] == entries;
    }

    /** CleanupBannedUserAccomplishments, given the PIDs of the permanently banned users. */
    method Cleanup(banned: seq<int>)
      requires |boards| == BOARDS
      modifies this
      ensures boards == Cleaned(old(boards), banned)
    {
      if |banned| == 0 {
        NothingBanned(boards);
        return;
      }
      var b := 0;
      while b < BOARDS
        invariant 0 <= b <= BOARDS && |boards| == BOARDS
        invariant forall c :: 0 <= c < b ==> boards[c] == Without(old(boards)[c], banned)
        invariant forall c :: b <= c < BOARDS ==> boards[c] == old(boards)[c]
      {
        var filtered := FilterEntries(boards[b], banned);
        boards := boards[b := filtered];
        b := b + 1;
      }
    }
  }

  function Empty(): seq<seq<Entry>> {
    seq(BOARDS, _ => [])
  }

  lemma NothingBanned(boards: seq<seq<Entry>>)
    requires |boards| == BOARDS
    ensures Cleaned(boards, []) == boards
  {
    forall b | 0 <= b < BOARDS
      ensures Without(boards[b], []) == boards[b]
    {
      WithoutNobody(boards[b]);
    }
  }

  lemma {:induction false} WithoutNobody(board: seq<Entry>)
    ensures Without(board, []) == board
  {
    if board == [] {
    } else {
      WithoutNobody(board[..|board| - 1]);
    }
  }

  // ---------- one step ----------

  lemma RecordKeepsAligned(boards: seq<seq<Entry>>, pid: int, values: seq<int>)
    requires Aligned(boards) && |values| == BOARDS
    ensures Aligned(Recorded(boards, pid, values))
  {
  }

  /** Recording leaves every entry of other PIDs where it was; a new PID's entry comes last, on all boards. */
  lemma RecordKeepsPlaces(boards: seq<seq<Entry>>, pid: int, values: seq<int>, b: nat, i: nat)
    requires Aligned(boards) && |values| == BOARDS && b < 32 && i < |boards[b]|
    ensures var board, r := boards[b], Recorded(boards, pid, values)[b];
            && |r| == |board| + (if exists k :: 0 <= k < |boards[0]| && boards[0][k].pid == pid then 0 else 1)
            && r[i] == (if board[i].pid == pid then Entry(pid, values[b]) else board[i])
            && (|r| > |board| ==> r[|board|] == Entry(pid, values[b]))
  {
    var k := IndexOf(boards[0], pid);
    assert boards[b][i].pid == boards[0][i].pid;
  }

  /** Cleaning up keeps the others' entries in their order. */
  lemma {:induction false} CleanupKeepsOrder(board: seq<Entry>, banned: seq<int>)
    ensures Without(board, banned) == Filter(board, (e: Entry) => e.pid !in banned)
  {
    if board == [] {
    } else {
      CleanupKeepsOrder(board[..|board| - 1], banned);
    }
  }

  lemma RecordedScore(boards: seq<seq<Entry>>, pid: int, values: seq<int>, b: nat, p: int)
    requires Aligned(boards) && |values| == BOARDS && b < BOARDS
    ensures ScoreIn(Recorded(boards, pid, values)[b], p) == if p == pid then Some(values[b]) else ScoreIn(boards[b], p)
  {
    var board, k := boards[b], IndexOf(boards[0], pid);
    var board' := Recorded(boards, pid, values)[b];
    if k < |boards[0]| {
      assert forall i :: 0 <= i < |board| ==> board[i].pid == boards[0][i].pid;
      ScoreOfReplaced(board, k, values[b], p);
    } else {
      assert board'[..|board|] == board;
    }
  }

  lemma {:induction false} ScoreOfReplaced(board: seq<Entry>, k: nat, score: int, p: int)
    requires k < |board| && forall i :: 0 <= i < |board| && i != k ==> board[i].pid != board[k].pid
    ensures ScoreIn(board[k := board[k].(score := score)], p)
         == if p == board[k].pid then Some(score) else ScoreIn(board, p)
  {
    var n := |board| - 1;
    var board' := board[k := board[k].(score := score)];
    if k < n {
      assert board'[..n] == board[..n][k := board[..n][k].(score := score)];
      ScoreOfReplaced(board[..n], k, score, p);
    } else {
      assert board'[..n] == board[..n];
    }
  }

  /** Two boards with the same PIDs lose the same positions. */
  lemma {:induction false} WithoutSamePids(s: seq<Entry>, t: seq<Entry>, banned: seq<int>)
    requires |s| == |t| && forall i :: 0 <= i < |s| ==> s[i].pid == t[i].pid
    ensures |Without(s, banned)| == |Without(t, banned)|
    ensures forall i :: 0 <= i < |Without(s, banned)| ==> Without(s, banned)[i].pid == Without(t, banned)[i].pid
  {
    if s == [] {
    } else {
      WithoutSamePids(s[..|s| - 1], t[..|t| - 1], banned);
    }
  }

  lemma {:induction false} WithoutDistinct(board: seq<Entry>, banned: seq<int>)
    requires forall i, j :: 0 <= i < j < |board| ==> board[i].pid != board[j].pid
    ensures forall i, j :: 0 <= i < j < |Without(board, banned)| ==>
        Without(board, banned)[i].pid != Without(board, banned)[j].pid
    ensures forall e :: e in Without(board, banned) ==> e in board && e.pid !in banned
  {
    if board == [] {
    } else {
      var n := |board| - 1;
      WithoutDistinct(board[..n], banned);
      var kept := Without(board[..n], banned);
      forall i | 0 <= i < |kept|
        ensures kept[i].pid != board[n].pid
      {
        assert kept[i] in board[..n];
      }
    }
  }

  lemma CleanupKeepsAligned(boards: seq<seq<Entry>>, banned: seq<int>)
    requires Aligned(boards)
    ensures Aligned(Cleaned(boards, banned))
  {
    forall b | 0 <= b < BOARDS
      ensures |Without(boards[b], banned)| == |Without(boards[0], banned)|
      ensures forall i :: 0 <= i < |Without(boards[0], banned)| ==>
                Without(boards[b], banned)[i].pid == Without(boards[0], banned)[i].pid
    {
      WithoutSamePids(boards[0], boards[b], banned);
    }
    WithoutDistinct(boards[0], banned);
  }

  lemma {:induction false} CleanedScore(board: seq<Entry>, banned: seq<int>, p: int)
    ensures ScoreIn(Without(board, banned), p) == if p in banned then None else ScoreIn(board, p)
  {
    if board == [] {
    } else {
      var n := |board| - 1;
      CleanedScore(board[..n], banned, p);
      var kept := Without(board[..n], banned);
      if board[n].pid in banned {
        assert Without(board, banned) == kept + [] == kept;
      } else {
        assert Without(board, banned) == kept + [board[n]];
        ScoreAppended(kept, board[n], p);
      }
    }
  }

  lemma ScoreAppended(board: seq<Entry>, e: Entry, p: int)
    ensures ScoreIn(board + [e], p) == if e.pid == p then Some(e.score) else ScoreIn(board, p)
  {
    assert (board + [e])[..|board|] == board;
  }

  // ---------- runs ----------

  datatype Op = Record(pid: int, values: seq<int>) | Cleanup(banned: seq<int>)

  predicate WellFormed(ops: seq<Op>) {
    forall i :: 0 <= i < |ops| && ops[i].Record? ==> |ops[i].values| == BOARDS
  }

  function Step(boards: seq<seq<Entry>>, op: Op): (r: seq<seq<Entry>>)
    requires Aligned(boards) && (op.Record? ==> |op.values| == BOARDS)
    ensures Aligned(r)
  {
    match op
    case Record(pid, values) => RecordKeepsAligned(boards, pid, values); Recorded(boards, pid, values)
    case Cleanup(banned) => CleanupKeepsAligned(boards, banned); Cleaned(boards, banned)
  }

  /** The document after a run that starts from any aligned one. */
  function After(start: seq<seq<Entry>>, ops: seq<Op>): (boards: seq<seq<Entry>>)
    requires Aligned(start) && WellFormed(ops)
    ensures Aligned(boards)
  {
    if ops == [] then start else Step(After(start, ops[..|ops| - 1]), ops[|ops| - 1])
  }

  predicate Touches(op: Op, pid: int) {
    match op
    case Record(p, _) => p == pid
    case Cleanup(banned) => pid in banned
  }

  /** The last step that recorded the PID or cleaned it out. */
  function LastTouch(ops: seq<Op>, pid: int): (r: Option<nat>)
    ensures r.Some? ==> r.value < |ops| && Touches(ops[r.value], pid)
    ensures forall k :: (if r.Some? then r.value else -1) < k < |ops| ==> !Touches(ops[k], pid)
  {
    if ops == [] then None
    else if Touches(ops[|ops| - 1], pid) then Some(|ops| - 1)
    else LastTouch(ops[..|ops| - 1], pid)
  }

  lemma StepScore(boards: seq<seq<Entry>>, op: Op, b: nat, pid: int)
    requires Aligned(boards) && (op.Record? ==> |op.values| == BOARDS) && b < BOARDS
    ensures ScoreIn(Step(boards, op)[b], pid)
         == if !Touches(op, pid) then ScoreIn(boards[b], pid) else if op.Record? then Some(op.values[b]) else None
  {
    match op
    case Record(p, values) => RecordedScore(boards, p, values, b, pid);
    case Cleanup(banned) => CleanedScore(boards[b], banned, pid);
  }

  /** Board `b` shows this score for the PID at exactly one index, or, without a score, shows the PID nowhere. */
  predicate Shows(board: seq<Entry>, pid: int, score: Option<int>) {
    match score
    case None => forall i :: 0 <= i < |board| ==> board[i].pid != pid
    case Some(v) => exists i :: 0 <= i < |board| && board[i] == Entry(pid, v)
                                && forall j :: 0 <= j < |board| && j != i ==> board[j].pid != pid
  }

  predicate DistinctPids(board: seq<Entry>) {
    forall i, j :: 0 <= i < j < |board| ==> board[i].pid != board[j].pid
  }

  lemma AlignedIsDistinct(boards: seq<seq<Entry>>, b: nat)
    requires Aligned(boards) && b < BOARDS
    ensures DistinctPids(boards[b])
  {
    forall i, j | 0 <= i < j < |boards[b]|
      ensures boards[b][i].pid != boards[b][j].pid
    {
      assert boards[b][i].pid == boards[0][i].pid && boards[b][j].pid == boards[0][j].pid;
    }
  }

  lemma ShowsItsScore(board: seq<Entry>, pid: int)
    requires DistinctPids(board)
    ensures Shows(board, pid, ScoreIn(board, pid))
  {
    ScoreInIff(board, pid);
    if i :| 0 <= i < |board| && board[i].pid == pid {
      assert board[i] == Entry(pid, board[i].score);
    }
  }

  /**
   * In every run all boards stay aligned, so that every indexed write is in range, and each board is exactly the map
   * from a PID to its last recorded value since it was last cleaned out (or to its value at the start).
   */
  lemma BoardsAreLastRecords(start: seq<seq<Entry>>, ops: seq<Op>, b: nat, pid: int)
    requires Aligned(start) && WellFormed(ops) && b < 32
    ensures Aligned(After(start, ops))
    ensures Shows(After(start, ops)[b], pid,
                  match LastTouch(ops, pid)
                  case None => ScoreIn(start[b], pid)
                  case Some(i) => if ops[i].Record? then Some(ops[i].values[b]) else None)
  {
    ScoresAreLastRecords(start, ops, b, pid);
    AlignedIsDistinct(After(start, ops), b);
    ShowsItsScore(After(start, ops)[b], pid);
  }

  lemma {:induction false} ScoresAreLastRecords(start: seq<seq<Entry>>, ops: seq<Op>, b: nat, pid: int)
    requires Aligned(start) && WellFormed(ops) && b < BOARDS
    ensures Aligned(After(start, ops))
    ensures ScoreIn(After(start, ops)[b], pid)
         == match LastTouch(ops, pid)
            case None => ScoreIn(start[b], pid)
            case Some(i) => if ops[i].Record? then Some(ops[i].values[b]) else None
  {
    if ops == [] {
    } else {
      var n := |ops| - 1;
      ScoresAreLastRecords(start, ops[..n], b, pid);
      StepScore(After(start, ops[..n]), ops[n], b, pid);
    }
  }
}
