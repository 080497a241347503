/** Which struct types survive being flattened and unmarshalled: those in which no field takes another's names. */
module MarshalerRoundTrip {
  import opened Options
  import opened Seqs
  import opened Decimals
  import opened Marshaler

  // ---------- the condition on the type ----------

  /** The names a field may be flattened to. */
  predicate IsName(f: Field, key: string, j: nat) {
    match f.kind
    case Scalar(_) => j == 0 && key == ScalarName(f)
    case SliceOf(_) => j < MAX_LEN && key == SliceName(f, j)
  }

  /** The unmarshaler looks at the field, and at its numbered names if it is a slice. */
  predicate Restorable(f: Field) {
    Usable(f) && (f.kind.SliceOf? ==> Dynamic(f))
  }

  /**
   * Only a scalar and a later slice may share a tag: the slice's names are then collected when the scalar has
   * its turn.
   */
  predicate TagsApart(fields: seq<Field>) {
    forall a, b :: 0 <= a < b < |fields| && fields[a].tag == fields[b].tag ==>
      fields[a].kind.Scalar? && fields[b].kind.SliceOf?
  }

  /** No field claims a name of another one before the first field with the other's tag has its turn. */
  ghost predicate NoCapture(fields: seq<Field>) {
    forall a, b, key, j: nat ::
      0 <= b < |fields| && 0 <= a < Owner(fields, b) && IsName(fields[b], key, j) ==> !Claims(fields[a], key)
  }

  ghost predicate RoundTrips(fields: seq<Field>) {
    (forall i :: 0 <= i < |fields| ==> Restorable(fields[i])) && TagsApart(fields) && NoCapture(fields)
  }

  // ---------- numbered names ----------

  lemma PadHasValue(j: nat)
    ensures AllDigits(Pad3(j)) && |Pad3(j)| >= 3 && Parse(Pad3(j)) == j
  {
    var d := Decimal(j);
    ParseOfDecimal(j);
    if |d| == 1 {
      ParseIgnoresLeadingZero(d);
      ParseIgnoresLeadingZero("0" + d);
      assert Pad3(j) == "0" + ("0" + d);
    } else if |d| == 2 {
      ParseIgnoresLeadingZero(d);
    }
  }

  lemma {:induction false} AllTrailing(s: string)
    requires AllDigits(s)
    ensures TrailingDigits(s) == s
  {
    if s == "" {
    } else {
      AllTrailing(s[..|s| - 1]);
    }
  }

  /** The number of a numbered name is read back, also past 999, where the name is longer. */
  lemma NumberIsReadBack(f: Field, j: nat)
    requires j < MAX_LEN
    ensures Prefix(f) <= SliceName(f, j) && Index(SliceName(f, j), Prefix(f)) == Some(j)
  {
    PadHasValue(j);
    AllTrailing(Pad3(j));
    assert SliceName(f, j)[|Prefix(f)|..] == Pad3(j);
  }

  lemma NameIsNotTag(f: Field, j: nat)
    ensures SliceName(f, j) != f.tag
  {
    PadHasValue(j);
    if EndsInXXX(f.tag) {
      assert SliceName(f, j)[|f.tag| - 3..] == Pad3(j);
      assert f.tag[|f.tag| - 3..][0] == 'X';
    }
  }

  lemma ClaimsOwn(f: Field, key: string, j: nat)
    requires Restorable(f) && IsName(f, key, j)
    ensures Claims(f, key)
    ensures f.kind.SliceOf? ==> key != f.tag && Captures(f, key) && IndexIn(f, key) == j
  {
    if f.kind.SliceOf? {
      NumberIsReadBack(f, j);
      NameIsNotTag(f, j);
    }
  }

  // ---------- the normalized map of a flattened struct ----------

  lemma {:induction false} SameLengths(fields: seq<Field>, values: seq<FieldValue>)
    requires Typed(fields, values)
    ensures |Names(fields, values)| == |Values(values)|
  {
    if fields == [] {
    } else {
      var k := |fields| - 1;
      SameLengths(fields[..k], values[..k]);
      assert TypedAt(fields[k], values[k]);
    }
  }

  /** What NormalizeJson makes of the name and value lists of a struct. */
  function Flattened(fields: seq<Field>, values: seq<FieldValue>): map<string, Value>
    requires Typed(fields, values)
  {
    SameLengths(fields, values);
    FromLists(Names(fields, values), Values(values))
  }

  function FieldMap(f: Field, v: FieldValue): map<string, Value>
    requires TypedAt(f, v)
  {
    FromLists(FieldNames(f, v), FieldValues(v))
  }

  lemma {:induction false} FromListsConcat(a: seq<string>, u: seq<Value>, b: seq<string>, v: seq<Value>)
    requires |a| == |u| && |b| == |v|
    ensures FromLists(a + b, u + v) == FromLists(a, u) + FromLists(b, v)
  {
    if b == [] {
      assert a + b == a && u + v == u;
    } else {
      var k := |b| - 1;
      assert (a + b)[..|a| + k] == a + b[..k] && (u + v)[..|a| + k] == u + v[..k];
      FromListsConcat(a, u, b[..k], v[..k]);
    }
  }

  lemma FlattenedStep(fields: seq<Field>, values: seq<FieldValue>)
    requires Typed(fields, values) && fields != []
    ensures var k := |fields| - 1;
            && Typed(fields[..k], values[..k]) && TypedAt(fields[k], values[k])
            && Flattened(fields, values) == Flattened(fields[..k], values[..k]) + FieldMap(fields[k], values[k])
  {
    var k := |fields| - 1;
    SameLengths(fields[..k], values[..k]);
    FromListsConcat(Names(fields[..k], values[..k]), Values(values[..k]),
                    FieldNames(fields[k], values[k]), FieldValues(values[k]));
  }

  lemma {:induction false} FromListsHas(names: seq<string>, values: seq<Value>, key: string) returns (j: nat)
    requires |names| == |values| && key in FromLists(names, values)
    ensures j < |names| && names[j] == key && values[j] == FromLists(names, values)[key]
    ensures forall i :: j < i < |names| ==> names[i] != key
  {
    j := |names| - 1;
    if names[j] != key {
      j := FromListsHas(names[..j], values[..j], key);
    }
  }

  lemma {:induction false} FromListsKeys(names: seq<string>, values: seq<Value>, j: nat)
    requires |names| == |values| && j < |names|
    ensures names[j] in FromLists(names, values)
  {
    var k := |names| - 1;
    if j == k {
    } else {
      FromListsKeys(names[..k], values[..k], j);
    }
  }

  /** Element `j` of field `b` is flattened to this name and value. */
  predicate Emits(fields: seq<Field>, values: seq<FieldValue>, b: nat, j: nat, key: string, v: Value)
    requires Typed(fields, values)
  {
    && b < |fields| && TypedAt(fields[b], values[b]) && j < |FieldValues(values[b])|
    && FieldNames(fields[b], values[b])[j] == key && FieldValues(values[b])[j] == v
  }

  lemma EmittedIsName(fields: seq<Field>, values: seq<FieldValue>, b: nat, j: nat, key: string, v: Value)
    requires Typed(fields, values) && Emits(fields, values, b, j, key, v)
    ensures IsName(fields[b], key, j)
  {
  }

  /** Every entry of the map comes from an element of a field. */
  lemma {:induction false} FlattenedSource(fields: seq<Field>, values: seq<FieldValue>, key: string)
    returns (b: nat, j: nat)
    requires Typed(fields, values) && key in Flattened(fields, values)
    ensures Emits(fields, values, b, j, key, Flattened(fields, values)[key])
  {
    var k := |fields| - 1;
    FlattenedStep(fields, values);
    if key in FieldMap(fields[k], values[k]) {
      b := k;
      j := FromListsHas(FieldNames(fields[k], values[k]), FieldValues(values[k]), key);
    } else {
      b, j := FlattenedSource(fields[..k], values[..k], key);
    }
  }

  lemma RoundTripsPrefix(fields: seq<Field>)
    requires RoundTrips(fields) && fields != []
    ensures RoundTrips(fields[..|fields| - 1])
  {
    var shorter := fields[..|fields| - 1];
    forall a, b, key, j: nat | 0 <= b < |shorter| && 0 <= a < Owner(shorter, b) && IsName(shorter[b], key, j)
      ensures !Claims(shorter[a], key)
    {
      OwnerOfShorter(fields, b);
      NoCaptureAt(fields, a, b, key, j);
    }
  }

  lemma OwnerOfShorter(fields: seq<Field>, b: nat)
    requires b < |fields| - 1
    ensures Owner(fields[..|fields| - 1], b) == Owner(fields, b)
  {
    var shorter := fields[..|fields| - 1];
    assert shorter[Owner(fields, b)].tag == fields[Owner(fields, b)].tag;
    assert fields[Owner(shorter, b)].tag == shorter[Owner(shorter, b)].tag;
  }

  /** What a field claims depends on its tag only. */
  lemma OwnerClaims(fields: seq<Field>, b: nat, key: string)
    requires b < |fields|
    ensures Claims(fields[Owner(fields, b)], key) <==> Claims(fields[b], key)
  {
  }

  lemma FieldMapHas(f: Field, v: FieldValue, j: nat)
    requires Restorable(f) && TypedAt(f, v) && j < |FieldValues(v)|
    ensures FieldNames(f, v)[j] in FieldMap(f, v) && FieldMap(f, v)[FieldNames(f, v)[j]] == FieldValues(v)[j]
  {
    var names := FieldNames(f, v);
    FromListsKeys(names, FieldValues(v), j);
    var i := FromListsHas(names, FieldValues(v), names[j]);
    if f.kind.SliceOf? {
      NumberIsReadBack(f, i);
      NumberIsReadBack(f, j);
    }
  }

  /** If the type round-trips, every element is found in the map under its name. */
  lemma {:induction false} FlattenedHas(fields: seq<Field>, values: seq<FieldValue>, b: nat, j: nat)
    requires RoundTrips(fields) && Typed(fields, values) && b < |fields| && TypedAt(fields[b], values[b])
    requires j < |FieldValues(values[b])|
    ensures var key := FieldNames(fields[b], values[b])[j];
            key in Flattened(fields, values) && Flattened(fields, values)[key] == FieldValues(values[b])[j]
    decreases |fields|
  {
    var k := |fields| - 1;
    FlattenedStep(fields, values);
    if b == k {
      FieldMapHas(fields[k], values[k], j);
    } else {
      RoundTripsPrefix(fields);
      FlattenedHas(fields[..k], values[..k], b, j);
      NamesAreNames(fields[b], values[b], j);
      forall i: nat
        ensures !IsName(fields[k], FieldNames(fields[b], values[b])[j], i)
      {
        NamesDiffer(fields, b, k, FieldNames(fields[b], values[b])[j], j, i);
      }
      NotInFieldMap(fields[k], values[k], FieldNames(fields[b], values[b])[j]);
    }
  }

  lemma NoCaptureAt(fields: seq<Field>, a: nat, b: nat, key: string, j: nat)
    requires NoCapture(fields) && b < |fields| && a < Owner(fields, b) && IsName(fields[b], key, j)
    ensures !Claims(fields[a], key)
  {
  }

  /** Two fields that both claim a key, one of them as its own name, have the same tag. */
  lemma OwnersAgree(fields: seq<Field>, a: nat, b: nat, key: string, i: nat, j: nat)
    requires RoundTrips(fields) && a < |fields| && b < |fields|
    requires IsName(fields[a], key, i) && IsName(fields[b], key, j)
    ensures Owner(fields, a) == Owner(fields, b)
  {
    ClaimsOwn(fields[a], key, i);
    ClaimsOwn(fields[b], key, j);
    OwnerClaims(fields, a, key);
    OwnerClaims(fields, b, key);
    if Owner(fields, a) < Owner(fields, b) {
      NoCaptureAt(fields, Owner(fields, a), b, key, j);
    } else if Owner(fields, b) < Owner(fields, a) {
      NoCaptureAt(fields, Owner(fields, b), a, key, i);
    }
  }

  lemma FieldMapSource(f: Field, v: FieldValue, key: string) returns (j: nat)
    requires TypedAt(f, v) && key in FieldMap(f, v)
    ensures IsName(f, key, j)
  {
    j := FromListsHas(FieldNames(f, v), FieldValues(v), key);
  }

  lemma NamesAreNames(f: Field, v: FieldValue, j: nat)
    requires TypedAt(f, v) && j < |FieldValues(v)|
    ensures IsName(f, FieldNames(f, v)[j], j)
  {
  }

  lemma NamesDiffer(fields: seq<Field>, a: nat, b: nat, key: string, i: nat, j: nat)
    requires RoundTrips(fields) && a < b < |fields| && IsName(fields[a], key, i)
    ensures !IsName(fields[b], key, j)
  {
    if IsName(fields[b], key, j) {
      OwnersAgree(fields, a, b, key, i, j);
      assert fields[a].tag == fields[b].tag;
      NameIsNotTag(fields[b], j);
    }
  }

  lemma NotInFieldMap(f: Field, v: FieldValue, key: string)
    requires TypedAt(f, v) && forall i: nat :: !IsName(f, key, i)
    ensures key !in FieldMap(f, v)
  {
    if key in FieldMap(f, v) {
      var j := FieldMapSource(f, v, key);
      assert false;
    }
  }

  // ---------- what is left when a field has its turn ----------

  lemma OwnNamesAreLeft(fields: seq<Field>, values: seq<FieldValue>, b: nat, j: nat)
    requires RoundTrips(fields) && Typed(fields, values) && b < |fields| && TypedAt(fields[b], values[b])
    requires j < |FieldValues(values[b])|
    ensures FieldNames(fields[b], values[b])[j] in Left(fields, Owner(fields, b), Flattened(fields, values).Keys)
  {
    var key := FieldNames(fields[b], values[b])[j];
    FlattenedHas(fields, values, b, j);
    NamesAreNames(fields[b], values[b], j);
    forall a | 0 <= a < Owner(fields, b)
      ensures !Claims(fields[a], key)
    {
      NoCaptureAt(fields, a, b, key, j);
    }
  }

  /** A key that is left for a field's tag comes from a field with that tag. */
  lemma OnlyOwnAreTaken(fields: seq<Field>, values: seq<FieldValue>, b: nat, key: string) returns (c: nat, j: nat)
    requires RoundTrips(fields) && Typed(fields, values) && b < |fields|
    requires key in Left(fields, Owner(fields, b), Flattened(fields, values).Keys) && Claims(fields[b], key)
    ensures Emits(fields, values, c, j, key, Flattened(fields, values)[key]) && IsName(fields[c], key, j)
    ensures fields[c].tag == fields[b].tag
  {
    c, j := FlattenedSource(fields, values, key);
    EmittedIsName(fields, values, c, j, key, Flattened(fields, values)[key]);
    SameOwner(fields, b, c, key, j);
  }

  lemma SameOwner(fields: seq<Field>, b: nat, c: nat, key: string, j: nat)
    requires RoundTrips(fields) && b < |fields| && c < |fields| && IsName(fields[c], key, j)
    requires Claims(fields[b], key) && !ClaimedBefore(fields, Owner(fields, b), key)
    ensures Owner(fields, b) == Owner(fields, c)
  {
    ClaimsOwn(fields[c], key, j);
    OwnerClaims(fields, b, key);
    OwnerClaims(fields, c, key);
    if Owner(fields, b) < Owner(fields, c) {
      NoCaptureAt(fields, Owner(fields, b), c, key, j);
    }
  }

  /** No other slice and no later field has a slice's tag. */
  lemma SameTagAsSlice(fields: seq<Field>, b: nat, c: nat)
    requires TagsApart(fields) && b < |fields| && c < |fields| && c != b
    requires fields[b].kind.SliceOf? && fields[c].tag == fields[b].tag
    ensures c < b && fields[c].kind.Scalar?
  {
  }

  lemma OnlyOwnAreCaptured(fields: seq<Field>, values: seq<FieldValue>, b: nat, key: string) returns (j: nat)
    requires RoundTrips(fields) && Typed(fields, values) && b < |fields| && fields[b].kind.SliceOf?
    requires key in Left(fields, Owner(fields, b), Flattened(fields, values).Keys)
    requires key != fields[b].tag && Claims(fields[b], key)
    ensures Emits(fields, values, b, j, key, Flattened(fields, values)[key])
  {
    var c;
    c, j := OnlyOwnAreTaken(fields, values, b, key);
    if c != b {
      SameTagAsSlice(fields, b, c);
      ScalarNameIsTag(fields[c], key, j);
    }
  }

  lemma ScalarNameIsTag(f: Field, key: string, j: nat)
    requires f.kind.Scalar? && Usable(f) && IsName(f, key, j)
    ensures key == f.tag
  {
  }

  lemma TagIsTaken(fields: seq<Field>, values: seq<FieldValue>, b: nat)
    requires RoundTrips(fields) && Typed(fields, values) && b < |fields| && fields[b].kind.SliceOf?
    ensures fields[b].tag !in Left(fields, b, Flattened(fields, values).Keys)
  {
    var key := fields[b].tag;
    if Owner(fields, b) < b {
      assert Claims(fields[Owner(fields, b)], key);
    } else if key in Left(fields, b, Flattened(fields, values).Keys) {
      var c, j := OnlyOwnAreTaken(fields, values, b, key);
      NameIsNotTag(fields[b], j);
      SameTagAsSlice(fields, b, c);
    }
  }

  // ---------- a slice is reassembled from its own names only ----------

  /** `captured` has exactly these names, numbered in order. */
  ghost predicate Numbers(captured: map<string, nat>, names: seq<string>) {
    && (forall j :: 0 <= j < |names| ==> names[j] in captured && captured[names[j]] == j)
    && (forall k :: k in captured ==> captured[k] < |names| && names[captured[k]] == k)
  }

  lemma {:induction false} NumbersInOrder(captured: map<string, nat>, names: seq<string>, ks: seq<string>, x: nat)
    requires Numbers(captured, names) && IsAssembly(captured, ks) && x < |ks|
    ensures captured[ks[x]] == x
    decreases x
  {
    if x == 0 {
    } else {
      NumbersInOrder(captured, names, ks, x - 1);
      assert captured[ks[x - 1]] < captured[ks[x]];
    }
    assert ks[x] in captured;
    assert x <= captured[ks[x]] < |names|;
    assert names[x] in captured;
    var z :| 0 <= z < |ks| && captured[ks[z]] == captured[names[x]];
    if z < x {
      NumbersInOrder(captured, names, ks, z);
    }
  }

  lemma AssemblyLength(captured: map<string, nat>, names: seq<string>, ks: seq<string>)
    requires Numbers(captured, names) && IsAssembly(captured, ks)
    ensures |names| == |ks|
  {
    if |names| < |ks| {
      NumbersInOrder(captured, names, ks, |names|);
    }
    if |ks| < |names| {
      assert names[|ks|] in captured;
      var z :| 0 <= z < |ks| && captured[ks[z]] == captured[names[|ks|]];
      NumbersInOrder(captured, names, ks, z);
    }
  }

  lemma AssemblyIsNames(captured: map<string, nat>, names: seq<string>, ks: seq<string>)
    requires Numbers(captured, names)
    ensures IsAssembly(captured, ks) <==> ks == names
  {
    if IsAssembly(captured, ks) {
      AssemblyLength(captured, names, ks);
      forall x | 0 <= x < |ks|
        ensures ks[x] == names[x]
      {
        NumbersInOrder(captured, names, ks, x);
      }
    }
    if ks == names {
      assert forall x :: 0 <= x < |ks| ==> names[x] in captured && captured[ks[x]] == x;
      forall k | k in captured
        ensures exists x :: 0 <= x < |ks| && captured[ks[x]] == captured[k]
      {
        assert captured[ks[captured[k]]] == captured[k];
      }
    }
  }

  lemma CapturedAreOwn(fields: seq<Field>, values: seq<FieldValue>, b: nat)
    requires RoundTrips(fields) && Typed(fields, values) && b < |fields| && fields[b].kind.SliceOf?
    requires TypedAt(fields[b], values[b])
    ensures fields[b].tag !in Left(fields, b, Flattened(fields, values).Keys)
    ensures Numbers(Captured(fields[b], Left(fields, Owner(fields, b), Flattened(fields, values).Keys)),
                    FieldNames(fields[b], values[b]))
  {
    var f, names := fields[b], FieldNames(fields[b], values[b]);
    var left := Left(fields, Owner(fields, b), Flattened(fields, values).Keys);
    var captured := Captured(f, left);
    forall j | 0 <= j < |names|
      ensures names[j] in captured && captured[names[j]] == j
    {
      OwnNamesAreLeft(fields, values, b, j);
      ClaimsOwn(f, names[j], j);
    }
    forall k | k in captured
      ensures captured[k] < |names| && names[captured[k]] == k
    {
      var j := OnlyOwnAreCaptured(fields, values, b, k);
      NumberIsReadBack(f, j);
    }
    TagIsTaken(fields, values, b);
  }

  lemma SliceIsRestored(fields: seq<Field>, values: seq<FieldValue>, b: nat, v: FieldValue)
    requires RoundTrips(fields) && Typed(fields, values) && b < |fields| && fields[b].kind.SliceOf?
    requires TypedAt(fields[b], values[b])
    ensures Restores(fields, Flattened(fields, values), b, v) <==> v == values[b]
  {
    var m, e := Flattened(fields, values), fields[b].kind.elem;
    var names := FieldNames(fields[b], values[b]);
    var captured := Captured(fields[b], Left(fields, Owner(fields, b), m.Keys));
    CapturedAreOwn(fields, values, b);
    forall j | 0 <= j < |names|
      ensures names[j] in m && m[names[j]] == values[b].vs[j]
    {
      FlattenedHas(fields, values, b, j);
    }
    assert At(m, names) == values[b].vs;
    FilterAll(values[b].vs, IsElem(e));
    forall ks
      ensures IsAssembly(captured, ks) <==> ks == names
    {
      AssemblyIsNames(captured, names, ks);
    }
    assert AssemblesTo(captured, m, e, names, values[b].vs);
  }

  lemma ScalarIsRestored(fields: seq<Field>, values: seq<FieldValue>, b: nat, v: FieldValue)
    requires RoundTrips(fields) && Typed(fields, values) && b < |fields| && fields[b].kind.Scalar?
    requires TypedAt(fields[b], values[b])
    ensures Restores(fields, Flattened(fields, values), b, v) <==> v == values[b]
  {
    FlattenedHas(fields, values, b, 0);
    OwnNamesAreLeft(fields, values, b, 0);
    assert Owner(fields, b) == b;
  }

  /** The whole trip: build the lists, normalize them, unmarshal; no run panics or loses a value. */
  method FlattenAndUnmarshal(fields: seq<Field>, values: seq<FieldValue>) returns (r: Result<seq<FieldValue>, Failure>)
    requires RoundTrips(fields) && Typed(fields, values)
    ensures r == Ok(values)
  {
    var names, types := BuildNamesAndTypesLists(fields, values);
    var list := BuildValuesList(fields, values);
    SameLengths(fields, values);
    var sent := seq(|names|, i requires 0 <= i < |names| => Str(names[i]));
    var m := NormalizeJson(sent, list);
    assert seq(|sent|, i requires 0 <= i < |sent| => sent[i].s) == names;
    RestoresExactly(fields, values, values);
    r := UnmarshalRequest(fields, m.value);
    if r.Ok? {
      RestoresExactly(fields, values, r.value);
    }
  }

  /**
   * Unmarshalling a flattened struct gives the struct, whatever order its map is visited in, and gives nothing
   * else.
   */
  lemma RestoresExactly(fields: seq<Field>, values: seq<FieldValue>, out: seq<FieldValue>)
    requires RoundTrips(fields) && Typed(fields, values)
    ensures Unmarshals(fields, Flattened(fields, values), out) <==> out == values
  {
    forall b, v | 0 <= b < |fields|
      ensures Restores(fields, Flattened(fields, values), b, v) <==> v == values[b]
    {
      assert TypedAt(fields[b], values[b]);
      if fields[b].kind.Scalar? {
        ScalarIsRestored(fields, values, b, v);
      } else {
        SliceIsRestored(fields, values, b, v);
      }
    }
  }

  // ---------- the rows of a list response ----------

  predicate SameShape(s: seq<FieldValue>, t: seq<FieldValue>) {
    |s| == |t| && forall i :: 0 <= i < |s| ==> |FieldValues(s[i])| == |FieldValues(t[i])|
  }

  lemma {:induction false} SameShapeSameNames(fields: seq<Field>, s: seq<FieldValue>, t: seq<FieldValue>)
    requires Typed(fields, s) && Typed(fields, t) && SameShape(s, t)
    ensures Names(fields, s) == Names(fields, t)
  {
    if fields == [] {
    } else {
      var k := |fields| - 1;
      SameShapeSameNames(fields[..k], s[..k], t[..k]);
      assert TypedAt(fields[k], s[k]) && TypedAt(fields[k], t[k]);
      assert FieldNames(fields[k], s[k]) == FieldNames(fields[k], t[k]);
    }
  }

  lemma {:induction false} KeysAreNames(names: seq<string>, u: seq<Value>, v: seq<Value>)
    requires |names| == |u| == |v|
    ensures FromLists(names, u).Keys == FromLists(names, v).Keys
  {
    if names == [] {
    } else {
      var k := |names| - 1;
      KeysAreNames(names[..k], u[..k], v[..k]);
      assert FromLists(names, u).Keys == FromLists(names[..k], u[..k]).Keys + {names[k]};
      assert FromLists(names, v).Keys == FromLists(names[..k], v[..k]).Keys + {names[k]};
    }
  }

  lemma NamesAreInjective(f: Field, key: string, i: nat, j: nat)
    requires IsName(f, key, i) && IsName(f, key, j)
    ensures i == j
  {
    if f.kind.SliceOf? {
      NumberIsReadBack(f, i);
      NumberIsReadBack(f, j);
    }
  }

  lemma NoLonger(fields: seq<Field>, s: seq<FieldValue>, t: seq<FieldValue>, b: nat)
    requires RoundTrips(fields) && Typed(fields, s) && Typed(fields, t) && Names(fields, s) == Names(fields, t)
    requires b < |fields|
    ensures |FieldValues(s[b])| <= |FieldValues(t[b])|
  {
    assert TypedAt(fields[b], s[b]) && TypedAt(fields[b], t[b]);
    var j := |FieldValues(s[b])| - 1;
    if j >= 0 {
      var key := FieldNames(fields[b], s[b])[j];
      FlattenedHas(fields, s, b, j);
      NamesAreNames(fields[b], s[b], j);
      SameLengths(fields, s);
      SameLengths(fields, t);
      KeysAreNames(Names(fields, s), Values(s), Values(t));
      assert key in Flattened(fields, t);
      var c, i := FlattenedSource(fields, t, key);
      EmittedIsName(fields, t, c, i, key, Flattened(fields, t)[key]);
      if c < b {
        NamesDiffer(fields, c, b, key, i, j);
      } else if b < c {
        NamesDiffer(fields, b, c, key, j, i);
      }
      NamesAreInjective(fields[b], key, i, j);
    }
  }

  /**
   * The header that a list response takes from its first row names another row's values exactly if their slices
   * are as long.
   */
  lemma HeaderFitsIff(fields: seq<Field>, first: seq<FieldValue>, row: seq<FieldValue>)
    requires RoundTrips(fields) && Typed(fields, first) && Typed(fields, row)
    ensures Names(fields, first) == Names(fields, row) <==> SameShape(first, row)
  {
    if SameShape(first, row) {
      SameShapeSameNames(fields, first, row);
    }
    if Names(fields, first) == Names(fields, row) {
      forall b | 0 <= b < |fields|
        ensures |FieldValues(first[b])| == |FieldValues(row[b])|
      {
        NoLonger(fields, first, row, b);
        NoLonger(fields, row, first, b);
      }
    }
  }

  /** A row of the same shape, read under the first row's header, is exactly its struct. */
  lemma RowsRoundTrip(fields: seq<Field>, first: seq<FieldValue>, row: seq<FieldValue>, out: seq<FieldValue>)
    requires RoundTrips(fields) && Typed(fields, first) && Typed(fields, row) && SameShape(first, row)
    ensures |Names(fields, first)| == |Values(row)|
    ensures Unmarshals(fields, FromLists(Names(fields, first), Values(row)), out) <==> out == row
  {
    SameShapeSameNames(fields, first, row);
    SameLengths(fields, row);
    RestoresExactly(fields, row, out);
  }

  // ---------- every other type loses some value ----------

  function Mark(e: Elem): Value {
    match e
    case IntElem => Num(1)
    case StringElem => Str("1")
  }

  /** All zero, except for one element of one field. */
  function Marked(fields: seq<Field>, b: nat, j: nat): seq<FieldValue>
    requires b < |fields|
  {
    seq(|fields|, i requires 0 <= i < |fields| =>
      if i != b then ZeroOf(fields[i].kind)
      else match fields[b].kind
           case Scalar(e) => One(Mark(e))
           case SliceOf(e) => Many(seq(j, _ => Zero(e)) + [Mark(e)]))
  }

  lemma MarkedIsTyped(fields: seq<Field>, b: nat, j: nat)
    requires b < |fields| && j < MAX_LEN
    ensures Typed(fields, Marked(fields, b, j))
  {
  }

  lemma MarkIsAt(fields: seq<Field>, b: nat, j: nat, key: string)
    requires b < |fields| && j < MAX_LEN && Typed(fields, Marked(fields, b, j))
    requires fields[b].kind.SliceOf?
    requires key in Flattened(fields, Marked(fields, b, j))
    requires Flattened(fields, Marked(fields, b, j))[key] == Mark(fields[b].kind.elem)
    ensures key == SliceName(fields[b], j)
  {
    var values := Marked(fields, b, j);
    var c, i := FlattenedSource(fields, values, key);
    MarkIsOnlyThere(fields, b, j, c, i);
    assert FieldNames(fields[b], values[b])[j] == SliceName(fields[b], j);
  }

  lemma MarkIsOnlyThere(fields: seq<Field>, b: nat, j: nat, c: nat, i: nat)
    requires b < |fields| && fields[b].kind.SliceOf? && c < |fields|
    requires i < |FieldValues(Marked(fields, b, j)[c])|
    requires FieldValues(Marked(fields, b, j)[c])[i] == Mark(fields[b].kind.elem)
    ensures c == b && i == j
  {
  }

  lemma IndexOfFiltered(m: map<string, Value>, e: Elem, ks: seq<string>, v: Value) returns (x: nat)
    requires (forall x :: 0 <= x < |ks| ==> ks[x] in m) && v in Filter(At(m, ks), IsElem(e))
    ensures x < |ks| && m[ks[x]] == v
  {
    FilterMembers(At(m, ks), IsElem(e));
    x :| 0 <= x < |ks| && At(m, ks)[x] == v;
  }

  lemma AssembledFrom(captured: map<string, nat>, m: map<string, Value>, e: Elem, ks: seq<string>, vs: seq<Value>,
                      v: Value)
    returns (key: string)
    requires AssemblesTo(captured, m, e, ks, vs) && v in vs
    ensures key in captured && key in m && m[key] == v
  {
    var x := IndexOfFiltered(m, e, ks, v);
    key := ks[x];
  }

  lemma SliceMarkIsLost(fields: seq<Field>, m: map<string, Value>, b: nat, j: nat, vs: seq<Value>)
    requires b < |fields| && fields[b].kind.SliceOf? && Usable(fields[b]) && Mark(fields[b].kind.elem) in vs
    requires forall key :: key in m && m[key] == Mark(fields[b].kind.elem) ==> key == SliceName(fields[b], j)
    requires !Dynamic(fields[b]) || ClaimedBefore(fields, Owner(fields, b), SliceName(fields[b], j))
    ensures !Restores(fields, m, b, Many(vs))
  {
    var f := fields[b];
    var captured := Captured(f, Left(fields, Owner(fields, b), m.Keys));
    assert SliceName(f, j) !in captured;
    forall ks
      ensures !AssemblesTo(captured, m, f.kind.elem, ks, vs)
    {
      if AssemblesTo(captured, m, f.kind.elem, ks, vs) {
        var key := AssembledFrom(captured, m, f.kind.elem, ks, vs, Mark(f.kind.elem));
        assert false;
      }
    }
  }

  lemma MarkIsLost(fields: seq<Field>, b: nat, j: nat)
    requires b < |fields| && j < MAX_LEN && Typed(fields, Marked(fields, b, j))
    requires !Restorable(fields[b])
             || (fields[b].kind.Scalar? && ClaimedBefore(fields, b, ScalarName(fields[b])))
             || (fields[b].kind.SliceOf? && ClaimedBefore(fields, Owner(fields, b), SliceName(fields[b], j)))
    ensures !Restores(fields, Flattened(fields, Marked(fields, b, j)), b, Marked(fields, b, j)[b])
  {
    var f, values := fields[b], Marked(fields, b, j);
    var m := Flattened(fields, values);
    if f.kind.SliceOf? && Usable(f) {
      assert values[b].vs[j] == Mark(f.kind.elem);
      forall key | key in m && m[key] == Mark(f.kind.elem)
        ensures key == SliceName(f, j)
      {
        MarkIsAt(fields, b, j, key);
      }
      SliceMarkIsLost(fields, m, b, j, values[b].vs);
    } else {
      MarkIsNotZero(fields, m, b, j);
    }
  }

  lemma MarkIsNotZero(fields: seq<Field>, m: map<string, Value>, b: nat, j: nat)
    requires b < |fields|
    requires !Usable(fields[b]) || (fields[b].kind.Scalar? && ClaimedBefore(fields, b, ScalarName(fields[b])))
    ensures !Restores(fields, m, b, Marked(fields, b, j)[b])
  {
  }

  function OtherMark(e: Elem): Value {
    match e
    case IntElem => Num(2)
    case StringElem => Str("2")
  }

  /** All zero, except that two slices have one element each. */
  function Twins(fields: seq<Field>, a: nat, b: nat): seq<FieldValue>
    requires a < b < |fields|
  {
    seq(|fields|, i requires 0 <= i < |fields| =>
      if i == a then Many([Mark(fields[a].kind.elem)])
      else if i == b then Many([OtherMark(fields[b].kind.elem)])
      else ZeroOf(fields[i].kind))
  }

  lemma LastFieldEmits(fields: seq<Field>, values: seq<FieldValue>, key: string) returns (i: nat)
    requires Typed(fields, values) && fields != [] && TypedAt(fields[|fields| - 1], values[|fields| - 1])
    requires key in FieldMap(fields[|fields| - 1], values[|fields| - 1])
    ensures key in Flattened(fields, values)
    ensures Emits(fields, values, |fields| - 1, i, key, Flattened(fields, values)[key])
  {
    var k := |fields| - 1;
    FlattenedStep(fields, values);
    i := FromListsHas(FieldNames(fields[k], values[k]), FieldValues(values[k]), key);
  }

  /** The value of a name comes from the last field that is flattened to it. */
  lemma {:induction false} SourceIsLast(fields: seq<Field>, values: seq<FieldValue>, b: nat, key: string)
    returns (c: nat, i: nat)
    requires Typed(fields, values) && b < |fields| && TypedAt(fields[b], values[b])
    requires key in FieldMap(fields[b], values[b])
    ensures key in Flattened(fields, values) && b <= c
    ensures Emits(fields, values, c, i, key, Flattened(fields, values)[key])
    decreases |fields|
  {
    var k := |fields| - 1;
    PrefixTyped(fields, values);
    if b == k || key in FieldMap(fields[k], values[k]) {
      c := k;
      i := LastFieldEmits(fields, values, key);
    } else {
      var before, valuesBefore := fields[..k], values[..k];
      assert before[b] == fields[b] && valuesBefore[b] == values[b];
      c, i := SourceIsLast(before, valuesBefore, b, key);
      KeptByLast(fields, values, key);
      EmitsLonger(fields, values, c, i, key, Flattened(before, valuesBefore)[key]);
    }
  }

  lemma PrefixTyped(fields: seq<Field>, values: seq<FieldValue>)
    requires Typed(fields, values) && fields != []
    ensures var k := |fields| - 1; Typed(fields[..k], values[..k]) && TypedAt(fields[k], values[k])
  {
  }

  lemma KeptByLast(fields: seq<Field>, values: seq<FieldValue>, key: string)
    requires Typed(fields, values) && fields != [] && TypedAt(fields[|fields| - 1], values[|fields| - 1])
    requires key !in FieldMap(fields[|fields| - 1], values[|fields| - 1])
    requires var k := |fields| - 1; Typed(fields[..k], values[..k]) && key in Flattened(fields[..k], values[..k])
    ensures var k := |fields| - 1;
            && key in Flattened(fields, values)
            && Flattened(fields, values)[key] == Flattened(fields[..k], values[..k])[key]
  {
    FlattenedStep(fields, values);
  }

  lemma EmitsLonger(fields: seq<Field>, values: seq<FieldValue>, c: nat, i: nat, key: string, v: Value)
    requires Typed(fields, values) && fields != []
    requires var k := |fields| - 1; Typed(fields[..k], values[..k]) && Emits(fields[..k], values[..k], c, i, key, v)
    ensures Emits(fields, values, c, i, key, v)
  {
  }

  lemma MarkIsOnlyInTwin(fields: seq<Field>, a: nat, b: nat, c: nat, i: nat)
    requires a < b < |fields| && c < |fields| && fields[a].kind.SliceOf? && fields[b].kind.SliceOf?
    requires i < |FieldValues(Twins(fields, a, b)[c])|
    requires FieldValues(Twins(fields, a, b)[c])[i] == Mark(fields[a].kind.elem)
    ensures c == a && i == 0
  {
  }

  /** Of two slices with the same tag, the later one's elements replace the earlier one's. */
  lemma TwinIsLost(fields: seq<Field>, a: nat, b: nat)
    requires a < b < |fields| && fields[a].tag == fields[b].tag && Restorable(fields[a])
    requires fields[a].kind.SliceOf? && fields[b].kind.SliceOf?
    ensures Typed(fields, Twins(fields, a, b))
    ensures !Restores(fields, Flattened(fields, Twins(fields, a, b)), a, Twins(fields, a, b)[a])
  {
    var values, mark := Twins(fields, a, b), Mark(fields[a].kind.elem);
    assert Typed(fields, values);
    var m := Flattened(fields, values);
    var captured := Captured(fields[a], Left(fields, Owner(fields, a), m.Keys));
    forall ks
      ensures !AssemblesTo(captured, m, fields[a].kind.elem, ks, [mark])
    {
      if AssemblesTo(captured, m, fields[a].kind.elem, ks, [mark]) {
        var key := AssembledFrom(captured, m, fields[a].kind.elem, ks, [mark], mark);
        TwinIsOverwritten(fields, a, b, key);
      }
    }
  }

  lemma TwinIsOverwritten(fields: seq<Field>, a: nat, b: nat, key: string)
    requires a < b < |fields| && fields[a].tag == fields[b].tag
    requires fields[a].kind.SliceOf? && fields[b].kind.SliceOf? && Typed(fields, Twins(fields, a, b))
    requires key in Flattened(fields, Twins(fields, a, b))
    ensures Flattened(fields, Twins(fields, a, b))[key] != Mark(fields[a].kind.elem)
  {
    var values := Twins(fields, a, b);
    var m := Flattened(fields, values);
    if m[key] == Mark(fields[a].kind.elem) {
      var c, i := FlattenedSource(fields, values, key);
      MarkIsOnlyInTwin(fields, a, b, c, i);
      assert TypedAt(fields[b], values[b]);
      assert FieldNames(fields[b], values[b])[0] == key;
      FromListsKeys(FieldNames(fields[b], values[b]), FieldValues(values[b]), 0);
      var c', i' := SourceIsLast(fields, values, b, key);
      MarkIsOnlyInTwin(fields, a, b, c', i');
    }
  }

  lemma SomeValueIsLost(fields: seq<Field>) returns (values: seq<FieldValue>)
    requires !RoundTrips(fields)
    ensures Typed(fields, values) && !Unmarshals(fields, Flattened(fields, values), values)
  {
    if i :| 0 <= i < |fields| && !Restorable(fields[i]) {
      MarkedIsTyped(fields, i, 0);
      MarkIsLost(fields, i, 0);
      values := Marked(fields, i, 0);
    } else if a, b :| 0 <= a < b < |fields| && fields[a].tag == fields[b].tag
                      && !(fields[a].kind.Scalar? && fields[b].kind.SliceOf?) {
      if fields[b].kind.Scalar? {
        assert Claims(fields[a], ScalarName(fields[b]));
        MarkedIsTyped(fields, b, 0);
        MarkIsLost(fields, b, 0);
        values := Marked(fields, b, 0);
      } else {
        TwinIsLost(fields, a, b);
        values := Twins(fields, a, b);
      }
    } else {
      var a, b, key, j: nat :|
        0 <= b < |fields| && 0 <= a < Owner(fields, b) && IsName(fields[b], key, j) && Claims(fields[a], key);
      assert ClaimedBefore(fields, Owner(fields, b), key) && ClaimedBefore(fields, b, key);
      MarkedIsTyped(fields, b, j);
      MarkIsLost(fields, b, j);
      values := Marked(fields, b, j);
    }
  }

  /** Every run of the unmarshaler on the flattened struct gives the struct back. */
  ghost predicate Survives(fields: seq<Field>, values: seq<FieldValue>)
    requires Typed(fields, values)
  {
    && Unmarshals(fields, Flattened(fields, values), values)
    && forall out :: Unmarshals(fields, Flattened(fields, values), out) ==> out == values
  }

  /**
   * A struct type round-trips for all its values exactly when the unmarshaler looks at every field, every slice's tag
   * is a numbered one, only a scalar and a later slice share a tag, and no field claims a name whose owner comes later.
   */
  lemma RoundTripIff(fields: seq<Field>)
    ensures RoundTrips(fields) <==> forall values :: Typed(fields, values) ==> Survives(fields, values)
  {
    if RoundTrips(fields) {
      forall values | Typed(fields, values)
        ensures Survives(fields, values)
      {
        forall out
          ensures Unmarshals(fields, Flattened(fields, values), out) <==> out == values
        {
          RestoresExactly(fields, values, out);
        }
      }
    } else {
      var values := SomeValueIsLost(fields);
    }
  }
}
