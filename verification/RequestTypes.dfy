/** A request type of the server that round-trips: tags that begin differently pass the test. */
module RequestTypes {
  import opened Marshaler
  import opened MarshalerRoundTrip
  import opened TagTest

  // ---------- tags that begin differently ----------

  /** A tag with at least three characters before any mark, and with the mark if it is a slice's. */
  predicate IsLong(f: Field) {
    |f.tag| >= 6 && (f.kind.SliceOf? ==> EndsInXXX(f.tag))
  }

  lemma {:induction false} MarkIsContained(tag: string)
    requires EndsInXXX(tag)
    ensures ContainsXXX(tag)
  {
    if |tag| == 3 {
    } else {
      assert tag[1..][|tag| - 4..] == tag[|tag| - 3..];
      MarkIsContained(tag[1..]);
    }
  }

  lemma LongTag(f: Field)
    requires IsLong(f)
    ensures Restorable(f) && |Prefix(f)| >= 3 && Prefix(f) <= f.tag && Prefix(f)[..3] == f.tag[..3]
  {
    if f.kind.SliceOf? {
      MarkIsContained(f.tag);
    }
  }

  predicate HeadsDiffer(f: Field, g: Field) {
    |f.tag| >= 3 && |g.tag| >= 3 && (f.tag[0] != g.tag[0] || f.tag[1] != g.tag[1] || f.tag[2] != g.tag[2])
  }

  lemma DifferentHeadsTakeNothing(f: Field, g: Field)
    requires IsLong(f) && IsLong(g) && HeadsDiffer(f, g)
    ensures f.tag != g.tag && !Takes(f, g)
  {
    LongTag(f);
    LongTag(g);
    assert Prefix(f)[0] == f.tag[0] && Prefix(f)[1] == f.tag[1] && Prefix(f)[2] == f.tag[2];
    assert Prefix(g)[0] == g.tag[0] && Prefix(g)[1] == g.tag[1] && Prefix(g)[2] == g.tag[2];
  }

  /** A type with long tags that begin differently round-trips. */
  lemma DifferentHeadsSuffice(fields: seq<Field>)
    requires forall i :: 0 <= i < |fields| ==> IsLong(fields[i])
    requires forall a, b :: 0 <= a < b < |fields| ==> HeadsDiffer(fields[a], fields[b])
    ensures PassesTest(fields) && RoundTrips(fields)
  {
    forall i | 0 <= i < |fields|
      ensures Restorable(fields[i])
    {
      LongTag(fields[i]);
    }
    forall a, b | 0 <= a < b < |fields|
      ensures fields[a].tag != fields[b].tag && !Takes(fields[a], fields[b])
    {
      DifferentHeadsTakeNothing(fields[a], fields[b]);
    }
    PassesIffRoundTrips(fields);
  }

  // ---------- the score-record request ----------

  function IntField(name: string, tag: string): Field {
    Field(name, tag, Scalar(IntElem))
  }

  function StringField(name: string, tag: string): Field {
    Field(name, tag, Scalar(StringElem))
  }

  function IntSlice(name: string, tag: string): Field {
    Field(name, tag, SliceOf(IntElem))
  }

  function ScoreRecordRequest(): seq<Field> {
    [StringField("Region", "region"), StringField("Locale", "locale"), IntField("SystemMS", "system_ms"),
     IntField("SongID", "song_id"), StringField("MachineID", "machine_id"), StringField("SessionGUID", "session_guid"),
     IntSlice("PIDs", "pidXXX"), IntField("BoiID", "boi_id"), IntField("BandMask", "band_mask"),
     IntField("ProvideInstaRank", "provide_insta_rank"), IntSlice("RoleIDs", "role_idXXX"),
     IntSlice("Scores", "scoreXXX"), IntSlice("Stars", "starsXXX"), IntSlice("Slots", "slotXXX"),
     IntSlice("DiffIDs", "diff_idXXX"),
     IntSlice("CScores", "c_scoreXXX"), IntSlice("CCScores", "cc_scoreXXX"), IntSlice("Percents", "percentXXX")]
  }

  /** The place of the field whose tag begins with these characters. */
  function Place(a: char, b: char, c: char): int {
    if a == 'r' && b == 'e' && c == 'g' then 0
    else if a == 'l' && b == 'o' && c == 'c' then 1
    else if a == 's' && b == 'y' && c == 's' then 2
    else if a == 's' && b == 'o' && c == 'n' then 3
    else if a == 'm' && b == 'a' && c == 'c' then 4
    else if a == 's' && b == 'e' && c == 's' then 5
    else if a == 'p' && b == 'i' && c == 'd' then 6
    else if a == 'b' && b == 'o' && c == 'i' then 7
    else if a == 'b' && b == 'a' && c == 'n' then 8
    else if a == 'p' && b == 'r' && c == 'o' then 9
    else if a == 'r' && b == 'o' && c == 'l' then 10
    else if a == 's' && b == 'c' && c == 'o' then 11
    else if a == 's' && b == 't' && c == 'a' then 12
    else if a == 's' && b == 'l' && c == 'o' then 13
    else if a == 'd' && b == 'i' && c == 'f' then 14
    else if a == 'c' && b == '_' && c == 's' then 15
    else if a == 'c' && b == 'c' && c == '_' then 16
    else if a == 'p' && b == 'e' && c == 'r' then 17
    else -1
  }

  /** Every field's head has that field's place. */
  predicate IsAt(f: Field, i: int) {
    IsLong(f) && Place(f.tag[0], f.tag[1], f.tag[2]) == i
  }

  lemma HeadsHavePlaces(i: nat)
    requires i < |ScoreRecordRequest()|
    ensures IsAt(ScoreRecordRequest()[i], i)
  {
    TagsAreLong(i);
    HeadsAreInPlace(i);
  }

  lemma TagsAreLong(i: nat)
    requires i < |ScoreRecordRequest()|
    ensures IsLong(ScoreRecordRequest()[i])
  {
  }

  lemma HeadsAreInPlace(i: nat)
    requires i < |ScoreRecordRequest()|
    ensures var tag := ScoreRecordRequest()[i].tag; |tag| >= 3 && Place(tag[0], tag[1], tag[2]) == i
  {
  }

  lemma PlacesSuffice(fields: seq<Field>)
    requires forall i :: 0 <= i < |fields| ==> IsAt(fields[i], i)
    ensures PassesTest(fields) && RoundTrips(fields)
  {
    forall a, b | 0 <= a < b < |fields|
      ensures HeadsDiffer(fields[a], fields[b])
    {
      assert IsAt(fields[a], a) && IsAt(fields[b], b);
    }
    DifferentHeadsSuffice(fields);
  }

  /** Every score-record request survives being flattened and unmarshalled, with any number of players. */
  lemma ScoreRecordRoundTrips()
    ensures PassesTest(ScoreRecordRequest()) && RoundTrips(ScoreRecordRequest())
  {
    forall i | 0 <= i < |ScoreRecordRequest()|
      ensures IsAt(ScoreRecordRequest()[i], i)
    {
      HeadsHavePlaces(i);
    }
    PlacesSuffice(ScoreRecordRequest());
  }
}
