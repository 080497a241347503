/** Whole runs over the scores collection: what the stored score of a player is, whatever was interleaved. */
module ScoreHistory {
  import opened Options
  import opened Seqs
  import opened Scores
  import opened ScoreCleanup

  datatype Op =
    | Submit(s: Submission)
    | SubmitBattle(battle: int, pid: int, score: int)
    | CleanDuplicates
    | CleanInvalid
    | DeletePlayer(pid: int)
    | DeleteBattle(battle: int)

  function ByBattle(battle: int, pid: int): Doc -> bool {
    (d: Doc) => d.BattleDoc? && d.battle == battle && d.pid == pid
  }

  function NotOfBattle(battle: int): Doc -> bool {
    (d: Doc) => !(d.BattleDoc? && d.battle == battle)
  }

  function OfOthers(pid: int): Doc -> bool {
    (d: Doc) => d.pid != pid
  }

  /** The first battle score of a player, or the number of documents. */
  function BattleIndex(docs: seq<Doc>, battle: int, pid: int): (k: nat)
    ensures k <= |docs|
    ensures k < |docs| ==> ByBattle(battle, pid)(docs[k])
    ensures forall i :: 0 <= i < k ==> !ByBattle(battle, pid)(docs[i])
  {
    if docs == [] || ByBattle(battle, pid)(docs[0]) then 0
    else
      var k := BattleIndex(docs[1..], battle, pid);
      assert forall i :: 1 <= i < k + 1 ==> docs[i] == docs[1..][i - 1];
      k + 1
  }

  function Step(b: Board, op: Op): Board {
    match op
    case Submit(s) => Submitted(b, s)
    case SubmitBattle(battle, pid, score) =>
      var k := BattleIndex(b.docs, battle, pid);
      if k == |b.docs| then Board(b.docs + [BattleDoc(b.nextID, pid, score, battle)], b.nextID + 1)
      else if score > b.docs[k].score then b.(docs := b.docs[k := BattleDoc(b.docs[k].id, pid, score, battle)])
      else b
    case CleanDuplicates => b.(docs := Deduplicated(b.docs))
    case CleanInvalid => b.(docs := Filter(b.docs, Valid()))
    case DeletePlayer(pid) => b.(docs := Filter(b.docs, OfOthers(pid)))
    case DeleteBattle(battle) => b.(docs := Filter(b.docs, NotOfBattle(battle)))
  }

  function After(ops: seq<Op>): Board {
    if ops == [] then Board([], 0) else Step(After(ops[..|ops| - 1]), ops[|ops| - 1])
  }

  /** A battle score is stored if it is the player's first for the battle, and replaces it if it is higher. */
  lemma BattleStores(b: Board, battle: int, pid: int, score: int, k: nat)
    requires k <= |b.docs| && forall i :: 0 <= i < k ==>
               !(b.docs[i].BattleDoc? && b.docs[i].battle == battle && b.docs[i].pid == pid)
    requires k < |b.docs| ==> b.docs[k].BattleDoc? && b.docs[k].battle == battle && b.docs[k].pid == pid
    ensures Step(b, SubmitBattle(battle, pid, score))
         == if k == |b.docs| then Board(b.docs + [BattleDoc(b.nextID, pid, score, battle)], b.nextID + 1)
            else if score <= b.docs[k].score then b
            else Board(b.docs[k := BattleDoc(b.docs[k].id, pid, score, battle)], b.nextID)
  {
    var j := BattleIndex(b.docs, battle, pid);
    if j < |b.docs| {
      assert ByBattle(battle, pid)(b.docs[j]);
    }
    if k < |b.docs| {
      assert ByBattle(battle, pid)(b.docs[k]);
    }
  }

  /** Deleting a player or a battle deletes exactly the player's scores and the battle's. */
  lemma DeletionsDelete(b: Board, pid: int, battle: int)
    ensures Step(b, DeletePlayer(pid)) == Board(Filter(b.docs, (d: Doc) => d.pid != pid), b.nextID)
    ensures Step(b, DeleteBattle(battle))
         == Board(Filter(b.docs, (d: Doc) => d.SongDoc? || d.battle != battle), b.nextID)
  {
    FilterAgree(b.docs, OfOthers(pid), (d: Doc) => d.pid != pid);
    FilterAgree(b.docs, NotOfBattle(battle), (d: Doc) => d.SongDoc? || d.battle != battle);
  }

  // ---------- the best submission ----------

  /** A deletion of the player, or the deletion of invalid songs, takes the key's score away. */
  predicate Erases(op: Op, key: Key) {
    (op.DeletePlayer? && op.pid == key.pid) || (op.CleanInvalid? && key.song == 0)
  }

  predicate Offers(op: Op, key: Key) {
    && op.Submit? && op.s.song == key.song && op.s.pid == key.pid && op.s.role == key.role
    && op.s.stars <= 6 && op.s.diff <= 4 && op.s.score > 0 && op.s.role <= 10 && 0 < op.s.percent <= 100
  }

  /** Step `i` submitted an acceptable score for the key, and nothing since has erased it. */
  predicate Counts(ops: seq<Op>, key: Key, i: nat) {
    i < |ops| && Offers(ops[i], key) && forall k :: i < k < |ops| ==> !Erases(ops[k], key)
  }

  /** Among the submissions that count, step `i` has the highest score, and is the first that has it. */
  predicate IsEarliestBest(ops: seq<Op>, key: Key, i: nat) {
    && Counts(ops, key, i)
    && forall j: nat :: j < |ops| && Counts(ops, key, j) ==>
         ops[j].s.score < ops[i].s.score || (ops[j].s.score == ops[i].s.score && i <= j)
  }

  function BestIndex(ops: seq<Op>, key: Key): (r: Option<nat>)
    ensures r.Some? ==> r.value < |ops| && Offers(ops[r.value], key)
  {
    if ops == [] then None
    else
      var n := |ops| - 1;
      var best := BestIndex(ops[..n], key);
      if Erases(ops[n], key) then None
      else if Offers(ops[n], key) && (best.None? || ops[n].s.score > ops[best.value].s.score) then Some(n)
      else best
  }

  lemma CountsOfLonger(ops: seq<Op>, key: Key, i: nat)
    requires ops != []
    ensures var n := |ops| - 1;
            Counts(ops, key, i)
            <==> if i == n then Offers(ops[n], key) else Counts(ops[..n], key, i) && !Erases(ops[n], key)
  {
    var n := |ops| - 1;
    if Counts(ops, key, i) && i != n {
      assert forall k :: i < k < n ==> ops[..n][k] == ops[k];
    }
  }

  lemma {:induction false} BestIndexIsEarliestBest(ops: seq<Op>, key: Key)
    ensures match BestIndex(ops, key)
            case Some(i) => IsEarliestBest(ops, key, i)
            case None => forall j: nat :: !Counts(ops, key, j)
  {
    if ops == [] {
    } else {
      var n := |ops| - 1;
      BestIndexIsEarliestBest(ops[..n], key);
      forall j: nat
        ensures Counts(ops, key, j)
                <==> if j == n then Offers(ops[n], key) else Counts(ops[..n], key, j) && !Erases(ops[n], key)
      {
        CountsOfLonger(ops, key, j);
      }
    }
  }

  // ---------- the stored document ----------

  /** The collection holds this submission's document for the key and no other, or none at all. */
  ghost predicate Represents(docs: seq<Doc>, key: Key, best: Option<Submission>) {
    && Count(docs, HasKey(key)) == (if best.Some? then 1 else 0)
    && forall d :: d in docs && HasKey(key)(d) ==> best.Some? && d == DocOf(best.value, d.id)
  }

  ghost predicate IsAccepted(best: Option<Submission>, key: Key) {
    best.Some? ==> KeyOf(best.value) == key && Acceptable(best.value)
  }

  lemma AppendKeeps(docs: seq<Doc>, d: Doc, key: Key, best: Option<Submission>)
    requires Represents(docs, key, best) && !HasKey(key)(d)
    ensures Represents(docs + [d], key, best)
  {
    CountConcat(docs, [d], HasKey(key));
  }

  lemma ReplaceKeeps(docs: seq<Doc>, k: nat, d: Doc, key: Key, best: Option<Submission>)
    requires Represents(docs, key, best) && k < |docs| && !HasKey(key)(docs[k]) && !HasKey(key)(d)
    ensures Represents(docs[k := d], key, best)
  {
    CountUpdate(docs, k, d, HasKey(key));
    assert forall x :: x in docs[k := d] ==> x in docs || x == d;
  }

  lemma FilterKeeps(docs: seq<Doc>, p: Doc -> bool, key: Key, best: Option<Submission>)
    requires Represents(docs, key, best)
    requires forall d :: d in docs && HasKey(key)(d) ==> p(d)
    ensures Represents(Filter(docs, p), key, best)
  {
    FilterMembers(docs, p);
    CountFilterSame(docs, p, HasKey(key));
  }

  lemma FilterErases(docs: seq<Doc>, p: Doc -> bool, key: Key)
    requires forall d :: d in docs && HasKey(key)(d) ==> !p(d)
    ensures Represents(Filter(docs, p), key, None)
  {
    FilterMembers(docs, p);
    CountNone(Filter(docs, p), HasKey(key));
  }

  function Better(best: Option<Submission>, s: Submission, key: Key): Option<Submission> {
    if KeyOf(s) == key && Acceptable(s) && (best.None? || s.score > best.value.score) then Some(s) else best
  }

  lemma SubmitRepresents(b: Board, s: Submission, key: Key, best: Option<Submission>)
    requires Represents(b.docs, key, best) && IsAccepted(best, key)
    ensures Represents(Submitted(b, s).docs, key, Better(best, s, key))
  {
    var k := IndexOf(b.docs, KeyOf(s));
    CountNone(b.docs, HasKey(key));
    if IsImprovement(b.docs, s) {
      if KeyOf(s) != key {
        if k == |b.docs| {
          AppendKeeps(b.docs, DocOf(s, b.nextID), key, best);
        } else {
          ReplaceKeeps(b.docs, k, DocOf(s, b.docs[k].id), key, best);
        }
      } else if k == |b.docs| {
        CountConcat(b.docs, [DocOf(s, b.nextID)], HasKey(key));
      } else {
        assert b.docs[k] in b.docs;
        ReplaceBest(b.docs, k, s, key);
      }
    } else if KeyOf(s) == key && Acceptable(s) {
      assert b.docs[k] in b.docs;
    }
  }

  lemma ReplaceBest(docs: seq<Doc>, k: nat, s: Submission, key: Key)
    requires k < |docs| && HasKey(key)(docs[k]) && Count(docs, HasKey(key)) == 1
    requires KeyOf(s) == key
    ensures Represents(docs[k := DocOf(s, docs[k].id)], key, Some(s))
  {
    var d := DocOf(s, docs[k].id);
    var docs' := docs[k := d];
    CountUpdate(docs, k, d, HasKey(key));
    forall e | e in docs' && HasKey(key)(e)
      ensures e == DocOf(s, e.id)
    {
      assert docs'[k] == d;
      CountOne(docs', HasKey(key), e, d);
    }
  }

  lemma KeyedIsNewest(docs: seq<Doc>, d: Doc, key: Key)
    requires Count(docs, HasKey(key)) <= 1 && d in docs && HasKey(key)(d)
    ensures IsNewest(docs, d)
  {
    forall e | e in docs && GroupOf(e) == GroupOf(d)
      ensures e.id <= d.id
    {
      CountOne(docs, HasKey(key), d, e);
    }
  }

  lemma StepRepresents(b: Board, op: Op, key: Key, best: Option<Submission>)
    requires Represents(b.docs, key, best) && IsAccepted(best, key)
    ensures Represents(Step(b, op).docs, key,
              if Erases(op, key) then None else if op.Submit? then Better(best, op.s, key) else best)
  {
    match op
    case Submit(s) => SubmitRepresents(b, s, key, best);
    case SubmitBattle(battle, pid, score) =>
      var k := BattleIndex(b.docs, battle, pid);
      if k == |b.docs| {
        AppendKeeps(b.docs, BattleDoc(b.nextID, pid, score, battle), key, best);
      } else if score > b.docs[k].score {
        ReplaceKeeps(b.docs, k, BattleDoc(b.docs[k].id, pid, score, battle), key, best);
      }
    case CleanDuplicates =>
      forall d | d in b.docs && HasKey(key)(d)
        ensures Newest(b.docs)(d)
      {
        KeyedIsNewest(b.docs, d, key);
      }
      FilterKeeps(b.docs, Newest(b.docs), key, best);
    case CleanInvalid =>
      if key.song == 0 {
        FilterErases(b.docs, Valid(), key);
      } else {
        FilterKeeps(b.docs, Valid(), key, best);
      }
    case DeletePlayer(pid) =>
      if pid == key.pid {
        FilterErases(b.docs, OfOthers(pid), key);
      } else {
        FilterKeeps(b.docs, OfOthers(pid), key, best);
      }
    case DeleteBattle(battle) =>
      FilterKeeps(b.docs, NotOfBattle(battle), key, best);
  }

  function BestOf(ops: seq<Op>, key: Key): Option<Submission> {
    match BestIndex(ops, key)
    case Some(i) => Some(ops[i].s)
    case None => None
  }

  lemma BestOfStep(ops: seq<Op>, key: Key)
    requires ops != []
    ensures var op, before := ops[|ops| - 1], BestOf(ops[..|ops| - 1], key);
            && IsAccepted(before, key)
            && BestOf(ops, key)
            == if Erases(op, key) then None else if op.Submit? then Better(before, op.s, key) else before
  {
  }

  lemma {:induction false} RunRepresents(ops: seq<Op>, key: Key)
    ensures Represents(After(ops).docs, key, BestOf(ops, key))
  {
    if ops == [] {
    } else {
      var n := |ops| - 1;
      RunRepresents(ops[..n], key);
      BestOfStep(ops, key);
      StepRepresents(After(ops[..n]), ops[n], key, BestOf(ops[..n], key));
      assert After(ops) == Step(After(ops[..n]), ops[n]);
    }
  }

  // ---------- the theorems ----------

  lemma EarliestBestIsUnique(ops: seq<Op>, key: Key, i: nat)
    requires IsEarliestBest(ops, key, i)
    ensures BestIndex(ops, key) == Some(i)
  {
    BestIndexIsEarliestBest(ops, key);
    assert Counts(ops, key, i);
  }

  /**
   * In every run, what is stored for a song, player and role has the score, percentage, stars, difficulty and
   * instruments of the earliest submission of the highest score.
   */
  lemma StoredIsEarliestBest(ops: seq<Op>, key: Key, i: nat, d: Doc)
    requires IsEarliestBest(ops, key, i)
    requires d in After(ops).docs && d.SongDoc? && d.song == key.song && d.pid == key.pid && d.role == key.role
    ensures var s := ops[i].s;
            && d.score == s.score && d.notesPct == s.percent && d.stars == s.stars && d.diff == s.diff
            && (key.role == 10 ==> d.boi == 0 && d.mask == s.bandMask)
            && (key.role != 10 ==> d.boi == 1)
            && (0 <= key.role < 10 ==> d.mask == [1, 2, 4, 8, 16, 32, 64, 128, 256, 512][key.role])
            && (key.role < 0 ==> d.mask == 0)
  {
    RunRepresents(ops, key);
    EarliestBestIsUnique(ops, key, i);
    assert HasKey(key)(d);
  }

  /** Something is stored for them exactly if a submission counts for them. */
  lemma StoredIffSubmitted(ops: seq<Op>, key: Key)
    ensures (exists d :: d in After(ops).docs && d.SongDoc? && d.song == key.song && d.pid == key.pid
                         && d.role == key.role)
            <==> exists i: nat :: IsEarliestBest(ops, key, i)
  {
    RunRepresents(ops, key);
    CountNone(After(ops).docs, HasKey(key));
    BestIndexIsEarliestBest(ops, key);
    assert forall d :: HasKey(key)(d)
             <==> d.SongDoc? && d.song == key.song && d.pid == key.pid && d.role == key.role;
  }

  /** There is at most one document for a song, player and role. */
  lemma OneStored(ops: seq<Op>, i: nat, j: nat)
    requires i < |After(ops).docs| && j < |After(ops).docs|
    requires var d, e := After(ops).docs[i], After(ops).docs[j];
             d.SongDoc? && e.SongDoc? && d.song == e.song && d.pid == e.pid && d.role == e.role
    ensures i == j
  {
    var docs := After(ops).docs;
    var key := Key(docs[i].song, docs[i].pid, docs[i].role);
    RunRepresents(ops, key);
    if i < j {
      CountTwo(docs, HasKey(key), i, j);
    } else if j < i {
      CountTwo(docs, HasKey(key), j, i);
    }
  }

  /** No cleanup deletes what the recorder stored for a real song, whatever it is interleaved with. */
  lemma CleanupSparesRecorded(ops: seq<Op>, d: Doc)
    requires d in After(ops).docs && d.SongDoc? && d.song != 0
    ensures d in Step(After(ops), CleanDuplicates).docs && d in Step(After(ops), CleanInvalid).docs
  {
    var key := Key(d.song, d.pid, d.role);
    var docs := After(ops).docs;
    RunRepresents(ops, key);
    assert HasKey(key)(d) && d == DocOf(BestOf(ops, key).value, d.id);
    KeyedIsNewest(docs, d, key);
    FilterMembers(docs, Newest(docs));
    FilterMembers(docs, Valid());
  }

  function Submits(subs: seq<Submission>): seq<Op> {
    seq(|subs|, i requires 0 <= i < |subs| => Submit(subs[i]))
  }

  lemma NotBelow(s: seq<Submission>, t: seq<Submission>, key: Key, d: Doc, e: Doc)
    requires multiset(s) == multiset(t)
    requires d in After(Submits(s)).docs && e in After(Submits(t)).docs && HasKey(key)(d) && HasKey(key)(e)
    ensures d.score <= e.score
  {
    RunRepresents(Submits(s), key);
    RunRepresents(Submits(t), key);
    BestIndexIsEarliestBest(Submits(s), key);
    BestIndexIsEarliestBest(Submits(t), key);
    var i := BestIndex(Submits(s), key).value;
    assert s[i] in multiset(t);
    var j :| 0 <= j < |t| && t[j] == s[i];
    assert Counts(Submits(t), key, j);
  }

  /** The stored score does not depend on the order in which the same submissions arrive. */
  lemma OrderDoesNotMatter(s: seq<Submission>, t: seq<Submission>, key: Key, d: Doc)
    requires multiset(s) == multiset(t)
    requires d in After(Submits(s)).docs && HasKey(key)(d)
    ensures exists e :: e in After(Submits(t)).docs && HasKey(key)(e) && e.score == d.score
  {
    RunRepresents(Submits(s), key);
    RunRepresents(Submits(t), key);
    BestIndexIsEarliestBest(Submits(t), key);
    var i := BestIndex(Submits(s), key).value;
    assert s[i] in multiset(t);
    var j :| 0 <= j < |t| && t[j] == s[i];
    assert Counts(Submits(t), key, j);
    CountNone(After(Submits(t)).docs, HasKey(key));
    var e :| e in After(Submits(t)).docs && HasKey(key)(e);
    NotBelow(s, t, key, d, e);
    NotBelow(t, s, key, e, d);
  }

  /** The submission of player `i` of a request, from the request's lists; what is not there is never looked at. */
  function PartOf(req: Request, i: nat): Op
    requires i < |req.pids| <= |req.roles| && |req.pids| <= |req.scores| && |req.pids| <= |req.stars|
  {
    Submit(Submission(req.song, req.bandMask, req.pids[i], req.roles[i], req.scores[i], req.stars[i],
                      if i < |req.diffs| then req.diffs[i] else 0, if i < |req.percents| then req.percents[i] else 0))
  }

  function PartsOf(req: Request, n: nat): seq<Op>
    requires n <= |req.pids| <= |req.roles| && |req.pids| <= |req.scores| && |req.pids| <= |req.stars|
  {
    seq(n, i requires 0 <= i < n => PartOf(req, i))
  }

  lemma AfterOneMore(ops: seq<Op>, op: Op)
    ensures After(ops + [op]) == Step(After(ops), op)
  {
    assert (ops + [op])[..|ops|] == ops;
  }

  lemma OneMorePart(b: Board, req: Request, n: nat)
    requires Complete(req) && n < |req.pids|
    ensures Recorded(b, req, n + 1) == Step(Recorded(b, req, n), PartOf(req, n))
  {
  }

  lemma WithoutLastPart(ops: seq<Op>, run: seq<Op>, req: Request, n: nat)
    requires Complete(req) && 0 < n <= |req.pids| && run == ops + PartsOf(req, n)
    ensures run == ops + PartsOf(req, n - 1) + [PartOf(req, n - 1)]
  {
  }

  /** Recording a request is recording its players' parts one after the other, so it is part of a run. */
  lemma {:induction false} RequestIsRun(ops: seq<Op>, run: seq<Op>, req: Request, n: nat)
    requires Complete(req) && n <= |req.pids| && run == ops + PartsOf(req, n)
    ensures After(run) == Recorded(After(ops), req, n)
    decreases n
  {
    if n == 0 {
      assert run == ops;
    } else {
      var before := ops + PartsOf(req, n - 1);
      RequestIsRun(ops, before, req, n - 1);
      WithoutLastPart(ops, run, req, n);
      AfterOneMore(before, PartOf(req, n - 1));
      OneMorePart(After(ops), req, n - 1);
    }
  }

  // ---------- ids ----------

  predicate IDsIssued(b: Board) {
    DistinctIDs(b.docs) && forall i :: 0 <= i < |b.docs| ==> b.docs[i].id < b.nextID
  }

  lemma FilterKeepsIDs(b: Board, p: Doc -> bool)
    requires IDsIssued(b)
    ensures IDsIssued(b.(docs := Filter(b.docs, p)))
  {
    FilterDistinct(b.docs, p);
    var kept := Filter(b.docs, p);
    forall i | 0 <= i < |kept|
      ensures kept[i].id < b.nextID
    {
      assert kept[i] in b.docs;
    }
  }

  lemma StepKeepsIDs(b: Board, op: Op)
    requires IDsIssued(b)
    ensures IDsIssued(Step(b, op))
  {
    match op
    case Submit(s) =>
    case SubmitBattle(_, _, _) =>
    case CleanDuplicates => FilterKeepsIDs(b, Newest(b.docs));
    case CleanInvalid => FilterKeepsIDs(b, Valid());
    case DeletePlayer(pid) => FilterKeepsIDs(b, OfOthers(pid));
    case DeleteBattle(battle) => FilterKeepsIDs(b, NotOfBattle(battle));
  }

  /** In every run all documents have ids of their own, so that the newest of a group is well defined. */
  lemma {:induction false} RunHasDistinctIDs(ops: seq<Op>)
    ensures IDsIssued(After(ops))
  {
    if ops == [] {
    } else {
      var n := |ops| - 1;
      RunHasDistinctIDs(ops[..n]);
      StepKeepsIDs(After(ops[..n]), ops[n]);
    }
  }

  lemma {:induction false} FilterDistinct(docs: seq<Doc>, p: Doc -> bool)
    requires DistinctIDs(docs)
    ensures DistinctIDs(Filter(docs, p))
    ensures forall d :: d in Filter(docs, p) ==> d in docs
  {
    FilterMembers(docs, p);
    if docs == [] {
    } else {
      var n := |docs| - 1;
      FilterDistinct(docs[..n], p);
      FilterMembers(docs[..n], p);
      var kept := Filter(docs[..n], p);
      forall i | 0 <= i < |kept|
        ensures kept[i].id != docs[n].id
      {
        assert kept[i] in docs[..n];
      }
    }
  }

  // ---------- battle scores and the duplicate filter ----------

  predicate OnePerBattle(docs: seq<Doc>, battle: int, pid: int) {
    Count(docs, ByBattle(battle, pid)) <= 1
  }

  lemma SubmitKeepsOnePerBattle(b: Board, s: Submission, battle: int, pid: int)
    requires OnePerBattle(b.docs, battle, pid)
    ensures OnePerBattle(Submitted(b, s).docs, battle, pid)
  {
    var k := IndexOf(b.docs, KeyOf(s));
    if k == |b.docs| {
      AppendCount(b.docs, DocOf(s, b.nextID), ByBattle(battle, pid));
    } else {
      CountUpdate(b.docs, k, DocOf(s, b.docs[k].id), ByBattle(battle, pid));
    }
  }

  lemma BattleKeepsOnePerBattle(b: Board, op: Op, battle: int, pid: int)
    requires OnePerBattle(b.docs, battle, pid) && op.SubmitBattle?
    ensures OnePerBattle(Step(b, op).docs, battle, pid)
  {
    var p := ByBattle(battle, pid);
    var k := BattleIndex(b.docs, op.battle, op.pid);
    if k == |b.docs| {
      CountNone(b.docs, ByBattle(op.battle, op.pid));
      AppendCount(b.docs, BattleDoc(b.nextID, op.pid, op.score, op.battle), p);
    } else {
      CountUpdate(b.docs, k, BattleDoc(b.docs[k].id, op.pid, op.score, op.battle), p);
    }
  }

  lemma AppendCount(docs: seq<Doc>, d: Doc, p: Doc -> bool)
    ensures Count(docs + [d], p) == Count(docs, p) + if p(d) then 1 else 0
  {
    CountConcat(docs, [d], p);
  }

  lemma StepKeepsOnePerBattle(b: Board, op: Op, battle: int, pid: int)
    requires OnePerBattle(b.docs, battle, pid)
    ensures OnePerBattle(Step(b, op).docs, battle, pid)
  {
    var p := ByBattle(battle, pid);
    match op
    case Submit(s) => SubmitKeepsOnePerBattle(b, s, battle, pid);
    case SubmitBattle(_, _, _) => BattleKeepsOnePerBattle(b, op, battle, pid);
    case CleanDuplicates => CountFilter(b.docs, Newest(b.docs), p);
    case CleanInvalid => CountFilter(b.docs, Valid(), p);
    case DeletePlayer(player) => CountFilter(b.docs, OfOthers(player), p);
    case DeleteBattle(deleted) => CountFilter(b.docs, NotOfBattle(deleted), p);
  }

  lemma {:induction false} RunHasOnePerBattle(ops: seq<Op>, battle: int, pid: int)
    ensures OnePerBattle(After(ops).docs, battle, pid)
  {
    if ops == [] {
    } else {
      var n := |ops| - 1;
      RunHasOnePerBattle(ops[..n], battle, pid);
      StepKeepsOnePerBattle(After(ops[..n]), ops[n], battle, pid);
    }
  }

  /** The player has as good a score, more recently stored, in another battle. */
  predicate HasEqualElsewhere(docs: seq<Doc>, d: Doc)
    requires d.BattleDoc?
  {
    exists e :: e in docs && e.BattleDoc? && e.battle != d.battle && e.pid == d.pid && e.score == d.score && e.id > d.id
  }

  /**
   * In every reachable collection the duplicate filter deletes a battle score exactly when the player has an equal,
   * newer one in another battle, since the grouping does not look at the battle.
   */
  lemma BattleScoreIsLostIff(ops: seq<Op>, d: Doc)
    requires d in After(ops).docs && d.BattleDoc?
    ensures d !in Step(After(ops), CleanDuplicates).docs <==> HasEqualElsewhere(After(ops).docs, d)
  {
    var docs := After(ops).docs;
    FilterMembers(docs, Newest(docs));
    RunHasOnePerBattle(ops, d.battle, d.pid);
    forall e | e in docs && GroupOf(e) == GroupOf(d) && e.id > d.id
      ensures e.BattleDoc? && e.battle != d.battle
    {
      if e.battle == d.battle {
        CountOne(docs, ByBattle(d.battle, d.pid), d, e);
      }
    }
  }

  /** Two battles, one player, the same score: the next cleanup deletes the first. */
  lemma BattleScoresCanBeLost(pid: int, score: int)
    ensures var ops := [SubmitBattle(1, pid, score), SubmitBattle(2, pid, score)];
            && After(ops).docs == [BattleDoc(0, pid, score, 1), BattleDoc(1, pid, score, 2)]
            && BattleDoc(0, pid, score, 1) !in Step(After(ops), CleanDuplicates).docs
  {
    var ops := [SubmitBattle(1, pid, score), SubmitBattle(2, pid, score)];
    var first, second := BattleDoc(0, pid, score, 1), BattleDoc(1, pid, score, 2);
    assert ops[..1] == [ops[0]] && [ops[0]][..0] == [];
    assert After([ops[0]]) == Board([first], 1);
    assert BattleIndex([first], 2, pid) == 1;
    assert After(ops) == Board([first, second], 2);
    assert second in After(ops).docs;
    assert HasEqualElsewhere(After(ops).docs, first);
    BattleScoreIsLostIff(ops, first);
  }
}
