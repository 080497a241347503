/**
 * The duplicate cleanup as it interleaves with everything else: it lists ids in one operation, and deletes them group
 * by group in later ones, when the documents may have changed.
 */
module InterleavedCleanup {
  import opened Options
  import opened Seqs
  import opened Scores
  import opened ScoreCleanup
  import opened ScoreHistory

  datatype Event =
    | Whole(op: Op)
    | ListDuplicates
    | DeleteListed(ids: set<nat>)

  /** The collection, and the ids that have been listed at any time. */
  datatype State = State(b: Board, listed: set<nat>)

  /** What the aggregation lists. */
  function Listed(docs: seq<Doc>): set<nat> {
    set d | d in docs && d.id in Dups(docs, GroupOf(d)) :: d.id
  }

  function OutsideOf(ids: set<nat>): Doc -> bool {
    (d: Doc) => d.id !in ids
  }

  /** A deletion takes some of the listed ids. */
  function Next(s: State, e: Event): State {
    match e
    case Whole(op) => s.(b := ScoreHistory.Step(s.b, op))
    case ListDuplicates => s.(listed := s.listed + Listed(s.b.docs))
    case DeleteListed(ids) => s.(b := s.b.(docs := Filter(s.b.docs, OutsideOf(ids * s.listed))))
  }

  function Reached(events: seq<Event>): State {
    if events == [] then State(Board([], 0), {}) else Next(Reached(events[..|events| - 1]), events[|events| - 1])
  }

  /** The operations of the run without the cleanup's. */
  function Operations(events: seq<Event>): seq<Op> {
    if events == [] then []
    else
      var before, e := Operations(events[..|events| - 1]), events[|events| - 1];
      if e.Whole? then before + [e.op] else before
  }

  // ---------- no listed id belongs to a song score ----------

  predicate NoSongListed(s: State) {
    && (forall id :: id in s.listed ==> id < s.b.nextID)
    && (forall d :: d in s.b.docs && d.SongDoc? ==> d.id !in s.listed)
  }

  /** A document of a later state is an earlier one's with its id and kind, or has a new id. */
  lemma IDsAreKept(b: Board, op: Op, d: Doc)
    requires d in ScoreHistory.Step(b, op).docs
    ensures d.id >= b.nextID || exists e :: e in b.docs && e.id == d.id && e.SongDoc? == d.SongDoc?
    ensures b.nextID <= ScoreHistory.Step(b, op).nextID
  {
    match op
    case Submit(s) =>
      var k := IndexOf(b.docs, KeyOf(s));
      if d !in b.docs && k < |b.docs| {
        assert b.docs[k] in b.docs && d == DocOf(s, b.docs[k].id);
      }
    case SubmitBattle(battle, pid, _) =>
      var k := BattleIndex(b.docs, battle, pid);
      if d !in b.docs && k < |b.docs| {
        assert b.docs[k] in b.docs && d.id == b.docs[k].id;
      }
    case CleanDuplicates => FilterMembers(b.docs, Newest(b.docs));
    case CleanInvalid => FilterMembers(b.docs, Valid());
    case DeletePlayer(pid) => FilterMembers(b.docs, OfOthers(pid));
    case DeleteBattle(battle) => FilterMembers(b.docs, NotOfBattle(battle));
  }

  lemma WholeListsNoSong(s: State, op: Op)
    requires NoSongListed(s)
    ensures NoSongListed(Next(s, Whole(op)))
  {
    forall d | d in ScoreHistory.Step(s.b, op).docs && d.SongDoc?
      ensures d.id !in s.listed
    {
      IDsAreKept(s.b, op, d);
    }
    NextIDGrows(s.b, op);
  }

  lemma NextIDGrows(b: Board, op: Op)
    ensures b.nextID <= ScoreHistory.Step(b, op).nextID
  {
  }

  /** Where every key has one document at most, no song score is an older duplicate. */
  lemma ListingListsNoSong(s: State)
    requires NoSongListed(s) && IDsIssued(s.b)
    requires forall key :: Count(s.b.docs, HasKey(key)) <= 1
    ensures NoSongListed(Next(s, ListDuplicates))
  {
    var docs := s.b.docs;
    forall d | d in docs && d.SongDoc?
      ensures d.id !in Listed(docs)
    {
      var key := Key(d.song, d.pid, d.role);
      KeyedIsNewest(docs, d, key);
      if d.id in Listed(docs) {
        var e :| e in docs && e.id in Dups(docs, GroupOf(e)) && e.id == d.id;
        SameID(docs, d, e);
        DupsAreOlder(docs, GroupOf(e), e);
      }
    }
    forall id | id in Listed(docs)
      ensures id < s.b.nextID
    {
      var d :| d in docs && d.id == id;
      var k :| 0 <= k < |docs| && docs[k] == d;
    }
  }

  /** What every interleaving keeps; for the song scores it is as if there were no deletions of listed ids. */
  ghost predicate Sound(events: seq<Event>) {
    var s := Reached(events);
    && IDsIssued(s.b) && NoSongListed(s)
    && forall key :: Represents(s.b.docs, key, BestOf(Operations(events), key))
  }

  lemma WholeRepresents(b: Board, ops: seq<Op>, op: Op, key: Key)
    requires Represents(b.docs, key, BestOf(ops, key))
    ensures Represents(ScoreHistory.Step(b, op).docs, key, BestOf(ops + [op], key))
  {
    assert (ops + [op])[..|ops|] == ops;
    BestOfStep(ops + [op], key);
    StepRepresents(b, op, key, BestOf(ops, key));
  }

  lemma AtMostOne(docs: seq<Doc>, key: Key, best: Option<Submission>)
    requires Represents(docs, key, best)
    ensures Count(docs, HasKey(key)) <= 1
  {
  }

  lemma DeletionRepresents(s: State, ids: set<nat>, key: Key, best: Option<Submission>)
    requires NoSongListed(s) && Represents(s.b.docs, key, best)
    ensures Represents(Next(s, DeleteListed(ids)).b.docs, key, best)
  {
    FilterKeeps(s.b.docs, OutsideOf(ids * s.listed), key, best);
  }

  lemma DeletionListsNoSong(s: State, ids: set<nat>)
    requires NoSongListed(s) && IDsIssued(s.b)
    ensures NoSongListed(Next(s, DeleteListed(ids))) && IDsIssued(Next(s, DeleteListed(ids)).b)
  {
    FilterKeepsIDs(s.b, OutsideOf(ids * s.listed));
    FilterMembers(s.b.docs, OutsideOf(ids * s.listed));
  }

  lemma {:induction false} EveryInterleavingIsSound(events: seq<Event>)
    ensures Sound(events)
  {
    if events == [] {
    } else {
      var n := |events| - 1;
      var s, ops := Reached(events[..n]), Operations(events[..n]);
      EveryInterleavingIsSound(events[..n]);
      match events[n]
      case Whole(op) =>
        WholeListsNoSong(s, op);
        StepKeepsIDs(s.b, op);
        forall key
          ensures Represents(Reached(events).b.docs, key, BestOf(Operations(events), key))
        {
          WholeRepresents(s.b, ops, op, key);
        }
      case ListDuplicates =>
        forall key
          ensures Count(s.b.docs, HasKey(key)) <= 1
        {
          AtMostOne(s.b.docs, key, BestOf(ops, key));
        }
        ListingListsNoSong(s);
      case DeleteListed(ids) =>
        DeletionListsNoSong(s, ids);
        forall key
          ensures Represents(Reached(events).b.docs, key, BestOf(Operations(events), key))
        {
          DeletionRepresents(s, ids, key, BestOf(ops, key));
        }
    }
  }

  // ---------- the theorems ----------

  /**
   * However the listing, the deletions and all other operations interleave, a deletion of listed ids never deletes a
   * song score, and the stored document of every key is that of its earliest best submission.
   */
  lemma DeletionsSpareSongs(events: seq<Event>, ids: set<nat>, d: Doc)
    requires d in Reached(events).b.docs && d.SongDoc?
    ensures d in Reached(events + [DeleteListed(ids)]).b.docs
    ensures BestOf(Operations(events), Key(d.song, d.pid, d.role)).Some?
    ensures StoredAs(d, BestOf(Operations(events), Key(d.song, d.pid, d.role)).value)
  {
    var s, key := Reached(events), Key(d.song, d.pid, d.role);
    EveryInterleavingIsSound(events);
    assert (events + [DeleteListed(ids)])[..|events|] == events;
    FilterMembers(s.b.docs, OutsideOf(ids * s.listed));
    assert Represents(s.b.docs, key, BestOf(Operations(events), key)) && HasKey(key)(d);
    DocIsStored(BestOf(Operations(events), key).value, d.id);
  }

  lemma ReachedWith(events: seq<Event>, e: Event)
    ensures Reached(events + [e]) == Next(Reached(events), e)
  {
    assert (events + [e])[..|events|] == events;
  }

  lemma StoresFirst(pid: int, score: int)
    ensures Next(State(Board([], 0), {}), Whole(SubmitBattle(1, pid, score)))
         == State(Board([BattleDoc(0, pid, score, 1)], 1), {})
  {
    assert BattleIndex([], 1, pid) == 0;
  }

  lemma StoresSecond(pid: int, score: int)
    ensures Next(State(Board([BattleDoc(0, pid, score, 1)], 1), {}), Whole(SubmitBattle(2, pid, score)))
         == State(Board([BattleDoc(0, pid, score, 1), BattleDoc(1, pid, score, 2)], 2), {})
  {
    assert BattleIndex([BattleDoc(0, pid, score, 1)], 2, pid) == 1;
  }

  lemma ImprovesFirst(pid: int, score: int, listed: set<nat>)
    ensures Next(State(Board([BattleDoc(0, pid, score, 1), BattleDoc(1, pid, score, 2)], 2), listed),
                 Whole(SubmitBattle(1, pid, score + 1)))
         == State(Board([BattleDoc(0, pid, score + 1, 1), BattleDoc(1, pid, score, 2)], 2), listed)
  {
    assert BattleIndex([BattleDoc(0, pid, score, 1), BattleDoc(1, pid, score, 2)], 1, pid) == 0;
  }

  lemma FirstIsListed(pid: int, score: int)
    ensures 0 in Listed([BattleDoc(0, pid, score, 1), BattleDoc(1, pid, score, 2)])
  {
    var first, second := BattleDoc(0, pid, score, 1), BattleDoc(1, pid, score, 2);
    var docs := [first, second];
    assert second in docs && first in docs;
    DupsAreOlder(docs, GroupOf(first), first);
  }

  lemma DeletesFirst(d: Doc, e: Doc, ids: set<nat>)
    requires d.id in ids && e.id !in ids
    ensures Filter([d, e], OutsideOf(ids)) == [e]
  {
    assert [d, e][..1] == [d] && [d][..0] == [];
    assert Filter([d], OutsideOf(ids)) == [];
  }

  /** A battle score that is listed, and then improved before the deletion, is deleted with its improvement. */
  lemma ImprovedBattleScoreCanBeLost(pid: int, score: int) returns (events: seq<Event>)
    ensures Reached(events).b.docs == [BattleDoc(0, pid, score + 1, 1), BattleDoc(1, pid, score, 2)]
    ensures Reached(events + [DeleteListed({0})]).b.docs == [BattleDoc(1, pid, score, 2)]
  {
    var better, second := BattleDoc(0, pid, score + 1, 1), BattleDoc(1, pid, score, 2);
    events := [];
    ReachedWith(events, Whole(SubmitBattle(1, pid, score)));
    StoresFirst(pid, score);
    events := events + [Whole(SubmitBattle(1, pid, score))];
    ReachedWith(events, Whole(SubmitBattle(2, pid, score)));
    StoresSecond(pid, score);
    events := events + [Whole(SubmitBattle(2, pid, score))];
    ReachedWith(events, ListDuplicates);
    FirstIsListed(pid, score);
    events := events + [ListDuplicates];
    var listed := Reached(events).listed;
    ReachedWith(events, Whole(SubmitBattle(1, pid, score + 1)));
    ImprovesFirst(pid, score, listed);
    events := events + [Whole(SubmitBattle(1, pid, score + 1))];
    ReachedWith(events, DeleteListed({0}));
    DeletesFirst(better, second, {0} * listed);
  }
}
