/** The housekeeping passes over the scores collection. */
module ScoreCleanup {
  import opened Seqs
  import opened Scores

  /** The fields duplicates agree on; a battle score has only two of them. */
  datatype Group =
    | SongGroup(pid: int, role: int, song: int, boi: int, diff: int, mask: int, notesPct: int, score: int, stars: int)
    | BattleGroup(pid: int, score: int)

  function GroupOf(d: Doc): Group {
    match d
    case SongDoc(_, pid, score, song, role, notesPct, stars, diff, boi, mask) =>
      SongGroup(pid, role, song, boi, diff, mask, notesPct, score, stars)
    case BattleDoc(_, pid, score, _) => BattleGroup(pid, score)
  }

  predicate DistinctIDs(docs: seq<Doc>) {
    forall i, j :: 0 <= i < j < |docs| ==> docs[i].id != docs[j].id
  }

  predicate IsNewest(docs: seq<Doc>, d: Doc) {
    forall e :: e in docs && GroupOf(e) == GroupOf(d) ==> e.id <= d.id
  }

  function Newest(docs: seq<Doc>): Doc -> bool {
    (d: Doc) => IsNewest(docs, d)
  }

  /** What should be left: the newest document of every group. */
  function Deduplicated(docs: seq<Doc>): seq<Doc> {
    Filter(docs, Newest(docs))
  }

  predicate IsInvalid(d: Doc) {
    || d.score <= 0
    || (d.SongDoc? && (d.song == 0 || d.role > 10 || d.stars > 6 || d.diff > 4 || d.notesPct > 100))
  }

  function Valid(): Doc -> bool {
    (d: Doc) => !IsInvalid(d)
  }

  // ---------- the passes as they run ----------

  function Spared(doomed: Doc -> bool): Doc -> bool {
    (d: Doc) => !doomed(d)
  }

  method DeleteMany(db: ScoreRecorder, doomed: Doc -> bool) returns (deleted: nat)
    modifies db
    ensures db.docs == Filter(old(db.docs), Spared(doomed)) && db.nextID == old(db.nextID)
    ensures deleted == |old(db.docs)| - |db.docs|
  {
    var kept := Filter(db.docs, Spared(doomed));
    deleted := |db.docs| - |kept|;
    db.docs := kept;
  }

  // ---------- the aggregation that finds the duplicates ----------

  function InsertByID(sorted: seq<Doc>, d: Doc): seq<Doc> {
    if sorted == [] || sorted[0].id <= d.id then [d] + sorted else [sorted[0]] + InsertByID(sorted[1..], d)
  }

  /** The sort stage: descending ids. */
  function NewestFirst(docs: seq<Doc>): seq<Doc> {
    if docs == [] then [] else InsertByID(NewestFirst(docs[..|docs| - 1]), docs[|docs| - 1])
  }

  function InGroup(g: Group): Doc -> bool {
    (d: Doc) => GroupOf(d) == g
  }

  /** The group stage: the ids of a group, pushed in the order of the sorted documents. */
  function GroupIDs(sorted: seq<Doc>, g: Group): seq<nat> {
    IDsOf(Filter(sorted, InGroup(g)))
  }

  function IDsOf(members: seq<Doc>): (ids: seq<nat>)
    ensures |ids| == |members|
  {
    seq(|members|, i requires 0 <= i < |members| => members[i].id)
  }

  function AllButFirst(ids: seq<nat>): seq<nat> {
    if |ids| > 1 then ids[1..] else []
  }

  /** The match and project stages: all but the first id of a group that has more than one. */
  function Dups(docs: seq<Doc>, g: Group): seq<nat> {
    AllButFirst(GroupIDs(NewestFirst(docs), g))
  }

  function IDIn(ids: seq<nat>): Doc -> bool {
    (d: Doc) => d.id in ids
  }

  function NotADup(docs: seq<Doc>): Doc -> bool {
    (d: Doc) => d.id !in Dups(docs, GroupOf(d))
  }

  /** What the aggregation leaves. */
  function Swept(docs: seq<Doc>): seq<Doc> {
    Filter(docs, NotADup(docs))
  }

  predicate DescendingIDs(s: seq<Doc>) {
    forall i, j :: 0 <= i < j < |s| ==> s[i].id > s[j].id
  }

  lemma {:induction false} InsertSorts(sorted: seq<Doc>, d: Doc)
    requires DescendingIDs(sorted) && forall e :: e in sorted ==> e.id != d.id
    ensures DescendingIDs(InsertByID(sorted, d))
    ensures forall e :: e in InsertByID(sorted, d) <==> e in sorted || e == d
  {
    if sorted == [] || sorted[0].id <= d.id {
    } else {
      InsertSorts(sorted[1..], d);
      var rest := InsertByID(sorted[1..], d);
      assert sorted == [sorted[0]] + sorted[1..];
      forall e | e in rest
        ensures e.id < sorted[0].id
      {
        NotFirstIsLess(sorted, d, e);
      }
      HeadDescends(sorted[0], rest);
    }
  }

  lemma NotFirstIsLess(sorted: seq<Doc>, d: Doc, e: Doc)
    requires DescendingIDs(sorted) && sorted != [] && d.id < sorted[0].id && (e in sorted[1..] || e == d)
    ensures e.id < sorted[0].id
  {
    if e != d {
      var i :| 0 <= i < |sorted| - 1 && sorted[1..][i] == e;
    }
  }

  lemma HeadDescends(d: Doc, rest: seq<Doc>)
    requires DescendingIDs(rest) && forall e :: e in rest ==> e.id < d.id
    ensures DescendingIDs([d] + rest)
  {
    assert forall i :: 0 <= i < |rest| ==> rest[i] in rest;
  }

  lemma {:induction false} SortSorts(docs: seq<Doc>)
    requires DistinctIDs(docs)
    ensures DescendingIDs(NewestFirst(docs)) && forall e :: e in NewestFirst(docs) <==> e in docs
  {
    if docs == [] {
    } else {
      var n := |docs| - 1;
      SortSorts(docs[..n]);
      assert docs == docs[..n] + [docs[n]];
      InsertSorts(NewestFirst(docs[..n]), docs[n]);
    }
  }

  lemma {:induction false} FilterDescends(s: seq<Doc>, p: Doc -> bool)
    requires DescendingIDs(s)
    ensures DescendingIDs(Filter(s, p))
  {
    if s == [] {
    } else {
      var n := |s| - 1;
      FilterDescends(s[..n], p);
      FilterMembers(s[..n], p);
      var kept := Filter(s[..n], p);
      forall i | 0 <= i < |kept|
        ensures kept[i].id > s[n].id
      {
        assert kept[i] in s[..n];
      }
    }
  }

  /** A document other than the first has this id. */
  predicate AfterFirst(members: seq<Doc>, id: nat) {
    exists i :: 1 <= i < |members| && members[i].id == id
  }

  lemma IDAfterFirst(members: seq<Doc>, ids: seq<nat>, id: nat)
    requires ids == IDsOf(members)
    ensures id in AllButFirst(ids) <==> AfterFirst(members, id)
  {
    if i :| 1 <= i < |members| && members[i].id == id {
      assert ids[1..][i - 1] == id;
    }
    if id in AllButFirst(ids) {
      var x :| 0 <= x < |ids| - 1 && ids[1..][x] == id;
      assert members[x + 1].id == id;
    }
  }

  lemma DupAt(docs: seq<Doc>, g: Group, id: nat)
    ensures var members := Filter(NewestFirst(docs), InGroup(g));
            id in Dups(docs, g) <==> AfterFirst(members, id)
  {
    var members, ids := Filter(NewestFirst(docs), InGroup(g)), GroupIDs(NewestFirst(docs), g);
    IDAfterFirst(members, ids, id);
    assert Dups(docs, g) == AllButFirst(ids);
  }

  /** In a descending list, a document that is not the first has one before it that is newer. */
  lemma NotFirstIff(members: seq<Doc>, d: Doc)
    requires DescendingIDs(members) && d in members
    ensures AfterFirst(members, d.id) <==> exists e :: e in members && e.id > d.id
  {
    var i :| 0 <= i < |members| && members[i] == d;
    if i > 0 {
      assert members[0] in members && members[0].id > d.id;
    }
  }

  /** The ids that the aggregation lists for a group are exactly those of its documents that are not its newest. */
  lemma DupsAreOlder(docs: seq<Doc>, g: Group, d: Doc)
    requires DistinctIDs(docs) && d in docs
    ensures d.id in Dups(docs, g) <==> GroupOf(d) == g && !IsNewest(docs, d)
  {
    var members := Filter(NewestFirst(docs), InGroup(g));
    MembersDescend(docs, g);
    DupAt(docs, g, d.id);
    if GroupOf(d) == g {
      NotFirstIff(members, d);
      assert (exists e :: e in members && e.id > d.id) <==> exists e :: e in docs && GroupOf(e) == g && e.id > d.id;
    } else {
      NoForeignID(docs, members, g, d);
    }
  }

  lemma MembersDescend(docs: seq<Doc>, g: Group)
    requires DistinctIDs(docs)
    ensures var members := Filter(NewestFirst(docs), InGroup(g));
            DescendingIDs(members) && forall d :: d in members <==> d in docs && GroupOf(d) == g
  {
    SortSorts(docs);
    FilterMembers(NewestFirst(docs), InGroup(g));
    FilterDescends(NewestFirst(docs), InGroup(g));
  }

  lemma NoForeignID(docs: seq<Doc>, members: seq<Doc>, g: Group, d: Doc)
    requires DistinctIDs(docs) && d in docs && GroupOf(d) != g
    requires forall e :: e in members ==> e in docs && GroupOf(e) == g
    ensures forall i :: 0 <= i < |members| ==> members[i].id != d.id
  {
    forall i | 0 <= i < |members|
      ensures members[i].id != d.id
    {
      assert members[i] in members;
      if members[i].id == d.id {
        SameID(docs, members[i], d);
      }
    }
  }

  lemma SweptIsDeduplicated(docs: seq<Doc>)
    requires DistinctIDs(docs)
    ensures Swept(docs) == Deduplicated(docs)
  {
    forall d | d in docs
      ensures NotADup(docs)(d) <==> Newest(docs)(d)
    {
      DupsAreOlder(docs, GroupOf(d), d);
    }
    FilterAgree(docs, NotADup(docs), Newest(docs));
  }

  /** Still there after the duplicates of all but the `left` groups are deleted. */
  function Survives(docs: seq<Doc>, left: set<Group>): Doc -> bool {
    (d: Doc) => GroupOf(d) in left || IsNewest(docs, d)
  }

  lemma SameID(docs: seq<Doc>, d: Doc, e: Doc)
    requires DistinctIDs(docs) && d in docs && e in docs && d.id == e.id
    ensures d == e
  {
  }

  lemma OneGroupLess(docs: seq<Doc>, left: set<Group>, g: Group)
    requires DistinctIDs(docs) && g in left
    ensures Filter(Filter(docs, Survives(docs, left)), Spared(IDIn(Dups(docs, g))))
         == Filter(docs, Survives(docs, left - {g}))
  {
    forall d | d in docs
      ensures d.id in Dups(docs, g) <==> GroupOf(d) == g && !IsNewest(docs, d)
    {
      DupsAreOlder(docs, g, d);
    }
    FilterFilter(docs, Survives(docs, left), Spared(IDIn(Dups(docs, g))), Survives(docs, left - {g}));
  }

  /** The aggregation is taken once; then the duplicates are deleted group by group, in any order. */
  method CleanupDuplicateScores(db: ScoreRecorder) returns (deletedCount: nat)
    requires DistinctIDs(db.docs)
    modifies db
    ensures db.docs == Swept(old(db.docs)) == Deduplicated(old(db.docs)) && db.nextID == old(db.nextID)
    ensures deletedCount == |old(db.docs)| - |db.docs|
  {
    var snapshot := db.docs;
    var left := set d | d in snapshot :: GroupOf(d);
    deletedCount := 0;
    FilterAll(snapshot, Survives(snapshot, left));
    while left != {}
      invariant db.docs == Filter(snapshot, Survives(snapshot, left)) && db.nextID == old(db.nextID)
      invariant deletedCount == |snapshot| - |db.docs|
      decreases left
    {
      var g :| g in left;
      var dups := Dups(snapshot, g);
      OneGroupLess(snapshot, left, g);
      if dups != [] {
        var deleted := DeleteMany(db, IDIn(dups));
        deletedCount := deletedCount + deleted;
      } else {
        FilterAll(db.docs, Spared(IDIn(dups)));
      }
      left := left - {g};
    }
    FilterAgree(snapshot, Survives(snapshot, {}), Newest(snapshot));
    SweptIsDeduplicated(snapshot);
  }

  /** The six deletion filters, in their order. */
  function Rules(): (rules: seq<Doc -> bool>) {
    [(d: Doc) => d.SongDoc? && d.song == 0,
     (d: Doc) => d.SongDoc? && d.role > 10,
     (d: Doc) => d.score <= 0,
     (d: Doc) => d.SongDoc? && d.stars > 6,
     (d: Doc) => d.SongDoc? && d.diff > 4,
     (d: Doc) => d.SongDoc? && d.notesPct > 100]
  }

  function NoneOf(rules: seq<Doc -> bool>): Doc -> bool {
    (d: Doc) => forall i :: 0 <= i < |rules| ==> !rules[i](d)
  }

  lemma RulesSayInvalid(d: Doc)
    ensures NoneOf(Rules())(d) <==> !IsInvalid(d)
  {
    var rules := Rules();
    assert IsInvalid(d) <==> rules[0](d) || rules[1](d) || rules[2](d) || rules[3](d) || rules[4](d) || rules[5](d);
  }

  lemma OneMoreRule(docs: seq<Doc>, rules: seq<Doc -> bool>, rule: Doc -> bool)
    ensures Filter(Filter(docs, NoneOf(rules)), Spared(rule)) == Filter(docs, NoneOf(rules + [rule]))
  {
    forall d
      ensures NoneOf(rules + [rule])(d) <==> NoneOf(rules)(d) && !rule(d)
    {
      var more := rules + [rule];
      assert more[|rules|] == rule;
      assert forall i :: 0 <= i < |rules| ==> more[i] == rules[i];
    }
    FilterFilter(docs, NoneOf(rules), Spared(rule), NoneOf(rules + [rule]));
  }

  method CleanupInvalidScores(db: ScoreRecorder) returns (deletedCount: nat)
    modifies db
    ensures db.docs == Filter(old(db.docs), Valid()) && db.nextID == old(db.nextID)
    ensures db.docs
         == Filter(old(db.docs), (d: Doc) =>
              d.score > 0
              && (d.SongDoc? ==> d.song != 0 && d.role <= 10 && d.stars <= 6 && d.diff <= 4 && d.notesPct <= 100))
    ensures deletedCount == |old(db.docs)| - |db.docs|
  {
    var rules := Rules();
    deletedCount := 0;
    FilterAll(db.docs, NoneOf([]));
    for i := 0 to |rules|
      invariant db.docs == Filter(old(db.docs), NoneOf(rules[..i])) && db.nextID == old(db.nextID)
      invariant deletedCount == |old(db.docs)| - |db.docs|
    {
      OneMoreRule(old(db.docs), rules[..i], rules[i]);
      assert rules[..i + 1] == rules[..i] + [rules[i]];
      var deleted := DeleteMany(db, rules[i]);
      deletedCount := deletedCount + deleted;
    }
    assert rules[..|rules|] == rules;
    forall d | d in old(db.docs)
      ensures NoneOf(rules)(d) <==> Valid()(d)
    {
      RulesSayInvalid(d);
    }
    FilterAgree(old(db.docs), NoneOf(rules), Valid());
    FilterAgree(old(db.docs), Valid(), (d: Doc) =>
      d.score > 0
      && (d.SongDoc? ==> d.song != 0 && d.role <= 10 && d.stars <= 6 && d.diff <= 4 && d.notesPct <= 100));
  }

  // ---------- what deduplication does ----------

  lemma {:induction false} HasNewest(docs: seq<Doc>, g: Group) returns (d: Doc)
    requires exists e :: e in docs && GroupOf(e) == g
    ensures d in docs && GroupOf(d) == g && IsNewest(docs, d)
  {
    var k := |docs| - 1;
    assert forall e :: e in docs <==> e in docs[..k] || e == docs[k];
    if exists e :: e in docs[..k] && GroupOf(e) == g {
      d := HasNewest(docs[..k], g);
      if GroupOf(docs[k]) == g && docs[k].id > d.id {
        d := docs[k];
      }
    } else {
      d := docs[k];
    }
  }

  /** Two scores with the same values: songs agree on nine fields, battles on player and score only. */
  predicate Duplicates(d: Doc, e: Doc) {
    && d.pid == e.pid && d.score == e.score && (d.SongDoc? <==> e.SongDoc?)
    && (d.SongDoc? && e.SongDoc? ==>
          && d.song == e.song && d.role == e.role && d.boi == e.boi && d.mask == e.mask
          && d.diff == e.diff && d.notesPct == e.notesPct && d.stars == e.stars)
  }

  /**
   * Dropping the ids that the aggregation lists leaves a document exactly when no duplicate of it is newer, and of any
   * document and its duplicates exactly one.
   */
  lemma KeepsExactlyTheNewest(docs: seq<Doc>, d: Doc)
    requires DistinctIDs(docs) && d in docs
    ensures d in Swept(docs) <==> forall e :: e in docs && Duplicates(d, e) ==> e.id <= d.id
    ensures exists e :: e in Swept(docs) && Duplicates(d, e)
    ensures forall e, f :: e in Swept(docs) && f in Swept(docs) && Duplicates(e, f) ==> e == f
  {
    SweptIsDeduplicated(docs);
    FilterMembers(docs, Newest(docs));
    var e := HasNewest(docs, GroupOf(d));
    assert forall x, y :: Duplicates(x, y) <==> GroupOf(x) == GroupOf(y);
    forall e, f | e in Swept(docs) && f in Swept(docs) && Duplicates(e, f)
      ensures e == f
    {
      SameID(docs, e, f);
    }
  }

  /** Cleaning up twice is cleaning up once. */
  lemma DeduplicationIsIdempotent(docs: seq<Doc>)
    ensures Deduplicated(Deduplicated(docs)) == Deduplicated(docs)
  {
    FilterMembers(docs, Newest(docs));
    FilterAll(Deduplicated(docs), Newest(Deduplicated(docs)));
  }
}
