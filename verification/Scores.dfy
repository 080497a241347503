/** The scores collection and the handler that records a song's scores in it. */
module Scores {
  import opened Options
  import opened Seqs
  import opened Decimals

  /** Song scores and battle scores share a collection; a battle score has none of the song fields. */
  datatype Doc =
    | SongDoc(id: nat, pid: int, score: int, song: int, role: int, notesPct: int, stars: int, diff: int,
              boi: int, mask: int)
    | BattleDoc(id: nat, pid: int, score: int, battle: int)

  /** One player's part of a request, with the request's song and band mask. */
  datatype Submission = Submission(
    song: int, bandMask: int, pid: int, role: int, score: int, stars: int, diff: int, percent: int)

  datatype Request = Request(
    song: int, bandMask: int, pids: seq<int>, roles: seq<int>, scores: seq<int>, stars: seq<int>,
    slots: seq<int>, diffs: seq<int>, percents: seq<int>)

  datatype InstaRank = InstaRank(song: int, isBoi: int, rank: int, part1: string, part2: string, slot: int)

  datatype Key = Key(song: int, pid: int, role: int)

  const BAND_ROLE := 10
  const RIVAL_MARGIN := 2000

  /** Part `i` is not refused before its percentage is looked at. */
  predicate ReadsPercent(req: Request, i: nat)
    requires i < |req.roles| && i < |req.scores| && i < |req.stars| && (req.stars[i] <= 6 ==> i < |req.diffs|)
  {
    req.stars[i] <= 6 && req.diffs[i] <= 4 && req.scores[i] > 0 && req.roles[i] <= 10
  }

  /**
   * Every element that is read exists: a part that is refused for its stars needs no difficulty, and one that is
   * refused before its percentage is looked at needs none.
   */
  predicate Complete(req: Request) {
    && |req.roles| >= |req.pids| && |req.scores| >= |req.pids| && |req.stars| >= |req.pids| && |req.slots| >= |req.pids|
    && (forall i :: 0 <= i < |req.pids| && req.stars[i] <= 6 ==> i < |req.diffs|)
    && (forall i :: 0 <= i < |req.pids| && ReadsPercent(req, i) ==> i < |req.percents|)
  }

  /** An element that is never read counts as 0. */
  function ElementOf(list: seq<int>, i: nat): int {
    if i < |list| then list[i] else 0
  }

  function Part(req: Request, i: nat): Submission
    requires Complete(req) && i < |req.pids|
  {
    Submission(req.song, req.bandMask, req.pids[i], req.roles[i], req.scores[i], req.stars[i],
               ElementOf(req.diffs, i), ElementOf(req.percents, i))
  }

  predicate Acceptable(s: Submission) {
    s.stars <= 6 && s.diff <= 4 && s.score > 0 && s.role <= 10 && 0 < s.percent <= 100
  }

  function InstrumentMask(role: int): int {
    match role
    case 0 => 1
    case 1 => 2
    case 2 => 4
    case 3 => 8
    case 4 => 16
    case 5 => 32
    case 6 => 64
    case 7 => 128
    case 8 => 256
    case 9 => 512
    case _ => 0
  }

  function KeyOf(s: Submission): Key {
    Key(s.song, s.pid, s.role)
  }

  function DocOf(s: Submission, id: nat): Doc {
    SongDoc(id, s.pid, s.score, s.song, s.role, s.percent, s.stars, s.diff,
            if s.role == BAND_ROLE then 0 else 1,
            if s.role == BAND_ROLE then s.bandMask else InstrumentMask(s.role))
  }

  function HasKey(key: Key): Doc -> bool {
    (d: Doc) => d.SongDoc? && d.song == key.song && d.pid == key.pid && d.role == key.role
  }

  /** The first document of a key, or the number of documents. */
  function IndexOf(docs: seq<Doc>, key: Key): (k: nat)
    ensures k <= |docs|
    ensures k < |docs| ==> HasKey(key)(docs[k])
    ensures forall i :: 0 <= i < k ==> !HasKey(key)(docs[i])
  {
    if docs == [] || HasKey(key)(docs[0]) then 0
    else
      var k := IndexOf(docs[1..], key);
      assert forall i :: 1 <= i < k + 1 ==> docs[i] == docs[1..][i - 1];
      k + 1
  }

  predicate IsImprovement(docs: seq<Doc>, s: Submission) {
    var k := IndexOf(docs, KeyOf(s));
    Acceptable(s) && (k == |docs| || s.score > docs[k].score)
  }

  /** A collection and the id the next inserted document gets. */
  datatype Board = Board(docs: seq<Doc>, nextID: nat)

  function Submitted(b: Board, s: Submission): Board {
    var k := IndexOf(b.docs, KeyOf(s));
    if !IsImprovement(b.docs, s) then b
    else if k == |b.docs| then Board(b.docs + [DocOf(s, b.nextID)], b.nextID + 1)
    else b.(docs := b.docs[k := DocOf(s, b.docs[k].id)])
  }

  /** A submission that no game can make is dropped, and its player told 0. */
  lemma SubmitRefuses(b: Board, s: Submission)
    requires s.stars > 6 || s.diff > 4 || s.score <= 0 || s.role > 10 || s.percent <= 0 || s.percent > 100
    ensures Submitted(b, s) == b && !IsImprovement(b.docs, s) && CurrentScore(b.docs, s) == 0
  {
  }

  /** `k` is the first document for a song, player and role, or the number of documents if there is none. */
  predicate IsFirstOf(docs: seq<Doc>, song: int, pid: int, role: int, k: nat) {
    && k <= |docs|
    && (k < |docs| ==> docs[k].SongDoc? && docs[k].song == song && docs[k].pid == pid && docs[k].role == role)
    && forall i :: 0 <= i < k ==>
         !(docs[i].SongDoc? && docs[i].song == song && docs[i].pid == pid && docs[i].role == role)
  }

  /** Any other is stored, with its fields, in place of the player's stored score or as a new one if it is better. */
  lemma SubmitStores(b: Board, s: Submission, k: nat)
    requires s.stars <= 6 && s.diff <= 4 && s.score > 0 && s.role <= 10 && 0 < s.percent <= 100
    requires IsFirstOf(b.docs, s.song, s.pid, s.role, k)
    ensures k < |b.docs| && s.score <= b.docs[k].score ==>
      Submitted(b, s) == b && !IsImprovement(b.docs, s) && CurrentScore(b.docs, s) == b.docs[k].score
    ensures k == |b.docs| || s.score > b.docs[k].score ==>
      && IsImprovement(b.docs, s) && CurrentScore(b.docs, s) == s.score
      && |Submitted(b, s).docs| == (if k == |b.docs| then k + 1 else |b.docs|)
      && (forall i :: 0 <= i < |b.docs| && i != k ==> Submitted(b, s).docs[i] == b.docs[i])
      && StoredAs(Submitted(b, s).docs[k], s)
      && Submitted(b, s).docs[k].id == (if k == |b.docs| then b.nextID else b.docs[k].id)
      && Submitted(b, s).nextID == (if k == |b.docs| then b.nextID + 1 else b.nextID)
  {
    var j := IndexOf(b.docs, KeyOf(s));
    if j < |b.docs| {
      assert HasKey(KeyOf(s))(b.docs[j]);
    }
    if k < |b.docs| {
      assert HasKey(KeyOf(s))(b.docs[k]);
    }
  }

  /** The document has the submission's fields; a band's score has the band's instruments, another one its role's. */
  predicate StoredAs(d: Doc, s: Submission) {
    && d.SongDoc?
    && d.song == s.song && d.pid == s.pid && d.role == s.role
    && d.score == s.score && d.notesPct == s.percent && d.stars == s.stars && d.diff == s.diff
    && (s.role == 10 ==> d.boi == 0 && d.mask == s.bandMask)
    && (s.role != 10 ==> d.boi == 1)
    && (0 <= s.role < 10 ==> d.mask == [1, 2, 4, 8, 16, 32, 64, 128, 256, 512][s.role])
    && (s.role < 0 ==> d.mask == 0)
  }

  lemma DocIsStored(s: Submission, id: nat)
    ensures StoredAs(DocOf(s, id), s)
  {
  }

  /** The board after the first `n` players of a request. */
  function Recorded(b: Board, req: Request, n: nat): Board
    requires Complete(req) && n <= |req.pids|
  {
    if n == 0 then b else Submitted(Recorded(b, req, n - 1), Part(req, n - 1))
  }

  /** The score a rejected or worse submission is told about: the stored one, or 0 if it was not looked up. */
  function CurrentScore(docs: seq<Doc>, s: Submission): int {
    if !Acceptable(s) then 0
    else if IsImprovement(docs, s) then s.score
    else docs[IndexOf(docs, KeyOf(s))].score
  }

  /** Whether player `i` improved on what was stored when its turn came. */
  predicate WasImprovement(b: Board, req: Request, i: nat)
    requires Complete(req) && i < |req.pids|
  {
    IsImprovement(Recorded(b, req, i).docs, Part(req, i))
  }

  function ToldScore(b: Board, req: Request, i: nat): int
    requires Complete(req) && i < |req.pids|
  {
    CurrentScore(Recorded(b, req, i).docs, Part(req, i))
  }

  predicate Told(b: Board, req: Request, n: nat, higher: seq<bool>, current: seq<int>)
    requires Complete(req) && n <= |req.pids|
  {
    && |higher| == |current| == n
    && (forall j :: 0 <= j < n ==> higher[j] == WasImprovement(b, req, j))
    && (forall j :: 0 <= j < n ==> current[j] == ToldScore(b, req, j))
  }

  function Above(song: int, role: int, score: int): Doc -> bool {
    (d: Doc) => d.SongDoc? && d.song == song && d.role == role && d.score > score
  }

  /** A document with the least score above the given one. */
  predicate IsNextHighest(docs: seq<Doc>, song: int, role: int, score: int, d: Doc) {
    && d in docs && Above(song, role, score)(d)
    && forall e :: e in docs && Above(song, role, score)(e) ==> d.score <= e.score
  }

  predicate IsRivalText(docs: seq<Doc>, song: int, role: int, score: int, nameOf: int -> string, text: string) {
    if exists d :: d in docs && IsNextHighest(docs, song, role, score, d) && d.score - score < 2000
    then exists d :: d in docs && IsNextHighest(docs, song, role, score, d)
                     && text == "i|" + Decimal(d.score - score) + "|" + nameOf(d.pid)
    else text == "f"
  }

  /** What player `i` is told, given the board after the whole request. */
  predicate IsInstaRank(docs: seq<Doc>, req: Request, i: nat, higher: bool, current: int, nameOf: int -> string,
                        r: InstaRank)
    requires Complete(req) && i < |req.pids|
  {
    var half := |req.pids| / 2;
    && r.song == req.song
    && r.isBoi == (if i < half then 1 else 0)
    && r.rank == Count(docs, Above(req.song, req.roles[i], req.scores[i])) + 1
    && r.slot == req.slots[if i < half then i + half else i]
    && (higher ==> r.part1 == "b" && IsRivalText(docs, req.song, req.roles[i], req.scores[i], nameOf, r.part2))
    && (!higher ==> r.part1 == "c|" + Itoa(current) && r.part2 == "f")
  }

  function Itoa(n: int): string {
    if n < 0 then "-" + Decimal(-n) else Decimal(n)
  }

  class ScoreRecorder {
    var docs: seq<Doc>
    var nextID: nat

    constructor ()
      ensures Current() == Board([], 0)
    {
      docs, nextID := [], 0;
    }

    ghost function Current(): Board
      reads this
    {
      Board(docs, nextID)
    }

    method Find(key: Key) returns (k: nat)
      ensures k == IndexOf(docs, key)
    {
      k := 0;
      while k < |docs| && !HasKey(key)(docs[k])
        invariant k <= |docs| && IndexOf(docs, key) == k + IndexOf(docs[k..], key)
      {
        assert docs[k..][1..] == docs[k + 1..];
        k := k + 1;
      }
    }

    /** One pass of the recording loop. */
    method Submit(s: Submission) returns (higher: bool, current: int)
      modifies this
      ensures Current() == Submitted(old(Current()), s)
      ensures higher == IsImprovement(old(docs), s) && current == CurrentScore(old(docs), s)
    {
      if s.stars > 6 || s.diff > 4 || s.score <= 0 || s.role > 10 || s.percent > 100 || s.percent <= 0 {
        return false, 0;
      }
      var boi, mask := 0, s.bandMask;
      if s.role != BAND_ROLE {
        boi, mask := 1, InstrumentMask(s.role);
      }
      var k := Find(Key(s.song, s.pid, s.role));
      if k == |docs| {
        docs := docs + [SongDoc(nextID, s.pid, s.score, s.song, s.role, s.percent, s.stars, s.diff, boi, mask)];
        nextID := nextID + 1;
        return true, s.score;
      }
      if s.score > docs[k].score {
        docs := docs[k := SongDoc(docs[k].id, s.pid, s.score, s.song, s.role, s.percent, s.stars, s.diff, boi, mask)];
        return true, s.score;
      }
      return false, docs[k].score;
    }

    method NextHighest(song: int, role: int, score: int) returns (r: Option<Doc>)
      ensures r.Some? ==> IsNextHighest(docs, song, role, score, r.value)
      ensures r.None? ==> forall d :: d in docs ==> !Above(song, role, score)(d)
    {
      r := None;
      for i := 0 to |docs|
        invariant r.Some? ==> IsNextHighest(docs[..i], song, role, score, r.value)
        invariant r.None? ==> forall d :: d in docs[..i] ==> !Above(song, role, score)(d)
      {
        assert docs[..i + 1] == docs[..i] + [docs[i]];
        if Above(song, role, score)(docs[i]) && (r.None? || docs[i].score < r.value.score) {
          r := Some(docs[i]);
        }
      }
      assert docs[..|docs|] == docs;
    }

    method Rank(req: Request, i: nat, higher: bool, current: int, nameOf: int -> string) returns (r: InstaRank)
      requires Complete(req) && i < |req.pids|
      ensures IsInstaRank(docs, req, i, higher, current, nameOf, r)
    {
      var half := |req.pids| / 2;
      var song, role, score := req.song, req.roles[i], req.scores[i];
      var rank := Count(docs, Above(song, role, score)) + 1;
      var next := NextHighest(song, role, score);
      var text := "f";
      if next.Some? {
        if next.value.score - score < RIVAL_MARGIN {
          text := "i|" + Decimal(next.value.score - score) + "|" + nameOf(next.value.pid);
        }
      }
      var isBoi := if i < half then 1 else 0;
      var slot := req.slots[if i < half then i + half else i];
      if higher {
        r := InstaRank(song, isBoi, rank, "b", text, slot);
      } else {
        r := InstaRank(song, isBoi, rank, "c|" + Itoa(current), "f", slot);
      }
    }

    method RecordAll(req: Request) returns (scoreHigher: array<bool>, currentScore: array<int>)
      requires Complete(req)
      modifies this
      ensures fresh(scoreHigher) && fresh(currentScore)
      ensures Current() == Recorded(old(Current()), req, |req.pids|)
      ensures Told(old(Current()), req, |req.pids|, scoreHigher[..], currentScore[..])
    {
      ghost var before := Current();
      scoreHigher := new bool[|req.pids|];
      currentScore := new int[|req.pids|];
      for i := 0 to |req.pids|
        invariant Current() == Recorded(before, req, i)
        invariant Told(before, req, i, scoreHigher[..i], currentScore[..i])
      {
        ghost var higher0, current0 := scoreHigher[..i], currentScore[..i];
        var higher, current := Submit(Part(req, i));
        scoreHigher[i], currentScore[i] := higher, current;
        assert scoreHigher[..i + 1] == higher0 + [higher] && currentScore[..i + 1] == current0 + [current];
      }
      assert scoreHigher[..] == scoreHigher[..|req.pids|] && currentScore[..] == currentScore[..|req.pids|];
    }

    /** Two loops, one for each half of the players. */
    method RankAll(req: Request, scoreHigher: array<bool>, currentScore: array<int>, nameOf: int -> string)
      returns (res: seq<InstaRank>)
      requires Complete(req) && scoreHigher.Length == currentScore.Length == |req.pids|
      ensures |res| == |req.pids|
      ensures forall i :: 0 <= i < |res| ==> IsInstaRank(docs, req, i, scoreHigher[i], currentScore[i], nameOf, res[i])
    {
      res := [];
      for i := 0 to |req.pids| / 2
        invariant |res| == i
        invariant forall j :: 0 <= j < i ==> IsInstaRank(docs, req, j, scoreHigher[j], currentScore[j], nameOf, res[j])
      {
        var r := Rank(req, i, scoreHigher[i], currentScore[i], nameOf);
        res := res + [r];
      }
      for i := |req.pids| / 2 to |req.pids|
        invariant |res| == i
        invariant forall j :: 0 <= j < i ==> IsInstaRank(docs, req, j, scoreHigher[j], currentScore[j], nameOf, res[j])
      {
        var r := Rank(req, i, scoreHigher[i], currentScore[i], nameOf);
        res := res + [r];
      }
    }

    /** The handler: record every player's part, then rank every player against the result. */
    method RecordScores(req: Request, validPID: bool, nameOf: int -> string) returns (res: seq<InstaRank>)
      requires validPID ==> Complete(req)
      modifies this
      ensures |req.pids| == 0 || !validPID ==> res == [] && Current() == old(Current())
      ensures |req.pids| > 0 && validPID ==> Current() == Recorded(old(Current()), req, |req.pids|)
      ensures |req.pids| > 0 && validPID ==> |res| == |req.pids| && forall i :: 0 <= i < |res| ==>
        IsInstaRank(docs, req, i, WasImprovement(old(Current()), req, i), ToldScore(old(Current()), req, i), nameOf,
                    res[i])
    {
      res := [];
      if |req.pids| == 0 || !validPID {
        return;
      }
      var scoreHigher, currentScore := RecordAll(req);
      ghost var higher, current := scoreHigher[..], currentScore[..];
      res := RankAll(req, scoreHigher, currentScore, nameOf);
      assert forall i :: 0 <= i < |res| ==> scoreHigher[i] == higher[i] && currentScore[i] == current[i];
    }
  }
}
