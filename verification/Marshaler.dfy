/**
 * The request/response marshaler: a struct's slices are flattened to numbered names, and numbered names are
 * collected into slices again. Structs are lists of field descriptors; JSON values are already decoded.
 */
module Marshaler {
  import opened Options
  import opened Seqs
  import opened Decimals

  datatype Elem = IntElem | StringElem

  datatype Kind = Scalar(elem: Elem) | SliceOf(elem: Elem)

  /** A struct field: its name in the program and its json tag. */
  datatype Field = Field(name: string, tag: string, kind: Kind)

  /** A decoded JSON value; `Other` is anything but a number or a string. */
  datatype Value = Num(n: int) | Str(s: string) | Other

  datatype FieldValue = One(v: Value) | Many(vs: seq<Value>)

  datatype Failure = LengthMismatch | BadFieldName(index: nat) | Panic

  /** The longest slice and the first number that do not fit a 64-bit int. */
  const MAX_LEN := 0x7FFF_FFFF_FFFF_FFFF
  const INT_LIMIT := 0x8000_0000_0000_0000

  // ---------- tags ----------

  predicate EndsInXXX(tag: string) {
    |tag| >= 3 && tag[|tag| - 3..] == "XXX"
  }

  predicate ContainsXXX(tag: string) {
    |tag| >= 3 && (tag[..3] == "XXX" || ContainsXXX(tag[1..]))
  }

  function Prefix(f: Field): string {
    if EndsInXXX(f.tag) then f.tag[..|f.tag| - 3] else f.tag
  }

  /** The unmarshaler skips the other fields. */
  predicate Usable(f: Field) {
    f.tag != "" && f.tag != "-"
  }

  predicate Dynamic(f: Field) {
    ContainsXXX(f.tag)
  }

  predicate HasElem(v: Value, e: Elem) {
    match e
    case IntElem => v.Num?
    case StringElem => v.Str?
  }

  function IsElem(e: Elem): Value -> bool {
    (v: Value) => HasElem(v, e)
  }

  function Zero(e: Elem): Value {
    match e
    case IntElem => Num(0)
    case StringElem => Str("")
  }

  function ZeroOf(kind: Kind): FieldValue {
    match kind
    case Scalar(e) => One(Zero(e))
    case SliceOf(_) => Many([])
  }

  predicate TypedAt(f: Field, v: FieldValue) {
    match f.kind
    case Scalar(e) => v.One? && HasElem(v.v, e)
    case SliceOf(e) => v.Many? && |v.vs| <= MAX_LEN && forall j :: 0 <= j < |v.vs| ==> HasElem(v.vs[j], e)
  }

  predicate Typed(fields: seq<Field>, values: seq<FieldValue>) {
    |values| == |fields| && forall i :: 0 <= i < |fields| ==> TypedAt(fields[i], values[i])
  }

  // ---------- flattening ----------

  /** At least three digits. */
  function Pad3(j: nat): string {
    var d := Decimal(j);
    if |d| == 1 then "00" + d else if |d| == 2 then "0" + d else d
  }

  function ScalarName(f: Field): string {
    if f.tag == "" then f.name else f.tag
  }

  function SliceName(f: Field, j: nat): string {
    Prefix(f) + Pad3(j)
  }

  function TypeChar(f: Field): char {
    match f.kind.elem
    case IntElem => 'd'
    case StringElem => 's'
  }

  function FieldNames(f: Field, v: FieldValue): seq<string> {
    match v
    case One(_) => [ScalarName(f)]
    case Many(vs) => seq(|vs|, j requires 0 <= j < |vs| => SliceName(f, j))
  }

  function FieldValues(v: FieldValue): seq<Value> {
    match v
    case One(x) => [x]
    case Many(vs) => vs
  }

  function Names(fields: seq<Field>, values: seq<FieldValue>): seq<string>
    requires |values| == |fields|
  {
    if fields == [] then []
    else
      var k := |fields| - 1;
      Names(fields[..k], values[..k]) + FieldNames(fields[k], values[k])
  }

  function Values(values: seq<FieldValue>): seq<Value> {
    if values == [] then [] else Values(values[..|values| - 1]) + FieldValues(values[|values| - 1])
  }

  function Types(fields: seq<Field>, values: seq<FieldValue>): string
    requires |values| == |fields|
  {
    if fields == [] then ""
    else
      var k := |fields| - 1;
      Types(fields[..k], values[..k]) + seq(|FieldValues(values[k])|, _ => TypeChar(fields[k]))
  }

  /** The numbered names of a slice and as many type characters. */
  method SliceNamesAndTypes(f: Field, n: nat) returns (names: seq<string>, types: string)
    ensures names == seq(n, j requires 0 <= j < n => SliceName(f, j)) && types == seq(n, _ => TypeChar(f))
  {
    names, types := [], "";
    for j := 0 to n
      invariant |names| == |types| == j
      invariant forall i :: 0 <= i < j ==> names[i] == SliceName(f, i)
      invariant forall i :: 0 <= i < j ==> types[i] == TypeChar(f)
    {
      var name := Prefix(f) + Pad3(j);
      names := names + [name];
      types := types + [TypeChar(f)];
    }
  }

  /** The part of the name list and the type string that one field contributes. */
  method FieldNamesAndTypes(f: Field, v: FieldValue) returns (names: seq<string>, types: string)
    requires TypedAt(f, v)
    ensures names == FieldNames(f, v) && types == seq(|FieldValues(v)|, _ => TypeChar(f))
  {
    if f.kind.SliceOf? {
      names, types := SliceNamesAndTypes(f, |v.vs|);
    } else {
      names := [ScalarName(f)];
      types := [TypeChar(f)];
    }
  }

  method BuildNamesAndTypesLists(fields: seq<Field>, values: seq<FieldValue>)
    returns (names: seq<string>, types: string)
    requires Typed(fields, values)
    ensures names == Names(fields, values) && types == Types(fields, values)
  {
    names, types := [], "";
    for i := 0 to |fields|
      invariant names == Names(fields[..i], values[..i]) && types == Types(fields[..i], values[..i])
    {
      assert fields[..i + 1][..i] == fields[..i] && values[..i + 1][..i] == values[..i];
      var fieldNames, fieldTypes := FieldNamesAndTypes(fields[i], values[i]);
      names := names + fieldNames;
      types := types + fieldTypes;
    }
    assert fields[..|fields|] == fields && values[..|fields|] == values;
  }

  method BuildValuesList(fields: seq<Field>, values: seq<FieldValue>) returns (list: seq<Value>)
    requires Typed(fields, values)
    ensures list == Values(values)
  {
    list := [];
    for i := 0 to |fields|
      invariant list == Values(values[..i])
    {
      assert values[..i + 1][..i] == values[..i];
      ghost var list0 := list;
      if fields[i].kind.SliceOf? {
        for j := 0 to |values[i].vs|
          invariant list == list0 + values[i].vs[..j]
        {
          list := list + [values[i].vs[j]];
        }
        assert values[i].vs[..|values[i].vs|] == values[i].vs;
      } else {
        list := list + [values[i].v];
      }
    }
    assert values[..|fields|] == values;
  }

  /** A list response: one header for all rows. */
  datatype Response = Response(names: seq<string>, types: string, rows: seq<seq<Value>>)

  /** MarshalResponse on a list of structs; it panics on an empty one. */
  method MarshalResponse(fields: seq<Field>, objs: seq<seq<FieldValue>>) returns (r: Result<Response, Failure>)
    requires forall k :: 0 <= k < |objs| ==> Typed(fields, objs[k])
    ensures r.Err? <==> objs == []
    ensures r.Ok? ==> Typed(fields, objs[0])
                      && r.value.names == Names(fields, objs[0]) && r.value.types == Types(fields, objs[0])
    ensures r.Ok? ==> r.value.rows == seq(|objs|, k requires 0 <= k < |objs| => Values(objs[k]))
  {
    if objs == [] {
      return Err(Panic);
    }
    var names, types := BuildNamesAndTypesLists(fields, objs[0]);
    var rows := BuildRows(fields, objs);
    r := Ok(Response(names, types, rows));
  }

  method BuildRows(fields: seq<Field>, objs: seq<seq<FieldValue>>) returns (rows: seq<seq<Value>>)
    requires forall k :: 0 <= k < |objs| ==> Typed(fields, objs[k])
    ensures rows == seq(|objs|, k requires 0 <= k < |objs| => Values(objs[k]))
  {
    rows := [];
    for k := 0 to |objs|
      invariant |rows| == k && forall i :: 0 <= i < k ==> rows[i] == Values(objs[i])
    {
      var row := BuildValuesList(fields, objs[k]);
      rows := rows + [row];
    }
  }

  // ---------- normalizing ----------

  /** The name-to-value map of two lists; a later value replaces an earlier one of the same name. */
  function FromLists(names: seq<string>, values: seq<Value>): map<string, Value>
    requires |names| == |values|
  {
    if names == [] then map[]
    else
      var k := |names| - 1;
      FromLists(names[..k], values[..k])[names[k] := values[k]]
  }

  /** normalizeJson, from the decoded lists on. */
  method NormalizeJson(fields: seq<Value>, values: seq<Value>) returns (r: Result<map<string, Value>, Failure>)
    ensures r.Ok? <==> |fields| == |values| && forall i :: 0 <= i < |fields| ==> fields[i].Str?
    ensures r.Ok? ==> r.value == FromLists(seq(|fields|, i requires 0 <= i < |fields| => fields[i].s), values)
  {
    if |fields| != |values| {
      return Err(LengthMismatch);
    }
    var m: map<string, Value> := map[];
    ghost var names: seq<string> := [];
    for i := 0 to |fields|
      invariant |names| == i
      invariant forall j :: 0 <= j < i ==> fields[j].Str? && names[j] == fields[j].s
      invariant m == FromLists(names, values[..i])
    {
      if !fields[i].Str? {
        return Err(BadFieldName(i));
      }
      m := m[fields[i].s := values[i]];
      assert values[..i + 1][..i] == values[..i] && (names + [fields[i].s])[..i] == names;
      names := names + [fields[i].s];
    }
    assert values[..|fields|] == values;
    assert names == seq(|fields|, i requires 0 <= i < |fields| => fields[i].s);
    r := Ok(m);
  }

  // ---------- collecting ----------

  /** The digits at the end. */
  function TrailingDigits(s: string): (d: string)
    ensures AllDigits(d)
  {
    if s != "" && IsDigit(s[|s| - 1]) then TrailingDigits(s[..|s| - 1]) + [s[|s| - 1]] else ""
  }

  /**
   * extractIndex: the number at the end of the key, after the prefix; it is an error if there is none or it
   * overflows.
   */
  function Index(key: string, prefix: string): Option<nat>
    requires prefix <= key
  {
    var d := TrailingDigits(key[|prefix|..]);
    if d == "" || Parse(d) >= INT_LIMIT then None else Some(Parse(d))
  }

  predicate Captures(f: Field, key: string) {
    Dynamic(f) && Prefix(f) <= key && Index(key, Prefix(f)).Some?
  }

  function IndexIn(f: Field, key: string): nat
    requires Captures(f, key)
  {
    Index(key, Prefix(f)).value
  }

  /** The field takes the key out of the map when its turn comes. */
  predicate Claims(f: Field, key: string) {
    Usable(f) && (key == f.tag || Captures(f, key))
  }

  predicate ClaimedBefore(fields: seq<Field>, i: nat, key: string)
    requires i <= |fields|
  {
    exists a :: 0 <= a < i && Claims(fields[a], key)
  }

  /** The keys that are left when field `i` has its turn. */
  function Left(fields: seq<Field>, i: nat, keys: set<string>): set<string>
    requires i <= |fields|
  {
    set key | key in keys && !ClaimedBefore(fields, i, key)
  }

  /** The keys that the field captures of the ones left, with their numbers. */
  function Captured(f: Field, left: set<string>): map<string, nat> {
    map key | key in left && key != f.tag && Captures(f, key) :: IndexIn(f, key)
  }

  /** `ks` picks one captured key for every captured number, in ascending order. */
  ghost predicate IsAssembly(captured: map<string, nat>, ks: seq<string>) {
    && (forall x :: 0 <= x < |ks| ==> ks[x] in captured)
    && (forall x, y :: 0 <= x < y < |ks| ==> captured[ks[x]] < captured[ks[y]])
    && (forall k :: k in captured ==> exists x :: 0 <= x < |ks| && captured[ks[x]] == captured[k])
  }

  function At(m: map<string, Value>, ks: seq<string>): seq<Value>
    requires forall x :: 0 <= x < |ks| ==> ks[x] in m
  {
    seq(|ks|, x requires 0 <= x < |ks| => m[ks[x]])
  }

  /** The values of an assembly's keys that have the right type are `vs`. */
  ghost predicate AssemblesTo(captured: map<string, nat>, m: map<string, Value>, e: Elem, ks: seq<string>,
                              vs: seq<Value>)
  {
    && IsAssembly(captured, ks)
    && (forall x :: 0 <= x < |ks| ==> ks[x] in m)
    && vs == Filter(At(m, ks), IsElem(e))
  }

  /** The first of the first `n` fields that has the tag, or `n`. */
  function FirstWithTag(fields: seq<Field>, tag: string, n: nat): (a: nat)
    requires n <= |fields|
    ensures a <= n && (a < n ==> fields[a].tag == tag)
    ensures forall b :: 0 <= b < a ==> fields[b].tag != tag
  {
    if n == 0 then 0
    else
      var a := FirstWithTag(fields, tag, n - 1);
      if a == n - 1 && fields[a].tag != tag then n else a
  }

  /** The first field with the same tag: what it captures is collected for all that share the tag. */
  function Owner(fields: seq<Field>, i: nat): (a: nat)
    requires i < |fields|
    ensures a <= i && fields[a].tag == fields[i].tag
    ensures forall b :: 0 <= b < a ==> fields[b].tag != fields[i].tag
  {
    FirstWithTag(fields, fields[i].tag, i)
  }

  /** A field's value may come out as `v`; with two keys for one number, either may win. */
  ghost predicate Restores(fields: seq<Field>, m: map<string, Value>, i: nat, v: FieldValue)
    requires i < |fields|
  {
    var f, left := fields[i], Left(fields, i, m.Keys);
    if !Usable(f) then v == ZeroOf(f.kind)
    else
      match f.kind
      case Scalar(e) => v == One(if f.tag in left && HasElem(m[f.tag], e) then m[f.tag] else Zero(e))
      case SliceOf(e) =>
        && f.tag !in left
        && v.Many?
        && exists ks :: AssemblesTo(Captured(f, Left(fields, Owner(fields, i), m.Keys)), m, e, ks, v.vs)
  }

  /** A slice field whose own tag is sent makes the reflective assignment panic. */
  predicate Panics(fields: seq<Field>, m: map<string, Value>, i: nat)
    requires i < |fields|
  {
    Usable(fields[i]) && fields[i].kind.SliceOf? && fields[i].tag in Left(fields, i, m.Keys)
  }

  ghost predicate Unmarshals(fields: seq<Field>, m: map<string, Value>, out: seq<FieldValue>) {
    |out| == |fields| && forall i :: 0 <= i < |fields| ==> Restores(fields, m, i, out[i])
  }

  /** `c` has the captured numbers with their values, and `from` the key each value came from. */
  ghost predicate CollectedFrom(captured: map<string, nat>, m: map<string, Value>, c: map<nat, Value>,
                                from: map<nat, string>)
  {
    && c.Keys == from.Keys
    && (forall x :: x in from ==> from[x] in captured && captured[from[x]] == x && from[x] in m && c[x] == m[from[x]])
    && (forall k :: k in captured ==> captured[k] in from)
  }

  method FindTrailingDigits(s: string) returns (d: string)
    ensures d == TrailingDigits(s)
  {
    var from := |s|;
    assert s[..|s|] == s && s[|s|..] == "";
    while from > 0 && IsDigit(s[from - 1])
      invariant 0 <= from <= |s|
      invariant TrailingDigits(s) == TrailingDigits(s[..from]) + s[from..]
    {
      assert s[..from][..from - 1] == s[..from - 1];
      assert s[from - 1..] == [s[from - 1]] + s[from..];
      from := from - 1;
    }
    d := s[from..];
  }

  method ScanNumber(d: string) returns (n: nat)
    requires AllDigits(d)
    ensures n == Parse(d)
  {
    n := 0;
    for i := 0 to |d|
      invariant n == Parse(d[..i])
    {
      assert d[..i + 1] == d[..i] + [d[i]];
      ParseAppend(d[..i], d[i]);
      n := 10 * n + DigitValue(d[i]);
    }
    assert d[..|d|] == d;
  }

  method ExtractIndex(key: string, prefix: string) returns (r: Option<nat>)
    requires prefix <= key
    ensures r == Index(key, prefix)
  {
    var d := FindTrailingDigits(key[|prefix|..]);
    if d == "" {
      return None;
    }
    var index := ScanNumber(d);
    r := if index >= INT_LIMIT then None else Some(index);
  }

  lemma CapturedGrows(f: Field, seen: set<string>, key: string)
    requires key != f.tag && key !in seen
    ensures Captured(f, seen + {key})
         == if Captures(f, key) then Captured(f, seen)[key := IndexIn(f, key)] else Captured(f, seen)
  {
  }

  lemma CollectOne(captured: map<string, nat>, m: map<string, Value>, c: map<nat, Value>, from: map<nat, string>,
                   key: string, index: nat)
    requires CollectedFrom(captured, m, c, from) && key in m && key !in captured
    ensures CollectedFrom(captured[key := index], m, c[index := m[key]], from[index := key])
  {
  }

  lemma RestShrinks(m: map<string, Value>, captured: map<string, nat>, key: string, index: nat)
    ensures m - captured.Keys - {key} == m - captured[key := index].Keys
  {
    assert captured[key := index].Keys == captured.Keys + {key};
  }

  /** The inner loop over the map, in any order, that moves captured keys from the map to the collection. */
  method CollectDynamic(f: Field, normalized: map<string, Value>)
    returns (collected: map<nat, Value>, rest: map<string, Value>, ghost from: map<nat, string>)
    requires Dynamic(f) && f.tag !in normalized
    ensures CollectedFrom(Captured(f, normalized.Keys), normalized, collected, from)
    ensures rest == normalized - Captured(f, normalized.Keys).Keys
  {
    collected, rest, from := map[], normalized, map[];
    var todo := normalized.Keys;
    ghost var seen: set<string> := {};
    while todo != {}
      invariant seen + todo == normalized.Keys && seen !! todo
      invariant CollectedFrom(Captured(f, seen), normalized, collected, from)
      invariant rest == normalized - Captured(f, seen).Keys
      decreases todo
    {
      var key :| key in todo;
      todo := todo - {key};
      CapturedGrows(f, seen, key);
      if Prefix(f) <= key {
        var index := ExtractIndex(key, Prefix(f));
        if index.Some? {
          CollectOne(Captured(f, seen), normalized, collected, from, key, index.value);
          collected := collected[index.value := normalized[key]];
          from := from[index.value := key];
          rest := rest - {key};
          RestShrinks(normalized, Captured(f, seen), key, index.value);
        }
      }
      seen := seen + {key};
    }
    assert seen == normalized.Keys;
  }

  method SortedKeys(keys: set<nat>) returns (sorted: seq<nat>)
    ensures forall x :: x in keys <==> x in sorted
    ensures forall i, j :: 0 <= i < j < |sorted| ==> sorted[i] < sorted[j]
  {
    sorted := [];
    var todo := keys;
    while todo != {}
      invariant todo <= keys
      invariant forall x :: x in keys <==> x in todo || x in sorted
      invariant forall i, j :: 0 <= i < j < |sorted| ==> sorted[i] < sorted[j]
      invariant forall i, x :: 0 <= i < |sorted| && x in todo ==> sorted[i] < x
      decreases todo
    {
      var least := Least(todo);
      sorted := sorted + [least];
      todo := todo - {least};
    }
  }

  method Least(s: set<nat>) returns (least: nat)
    requires s != {}
    ensures least in s && forall x :: x in s ==> least <= x
  {
    least :| least in s;
    var todo := s - {least};
    while todo != {}
      invariant todo <= s && least in s && forall x :: x in s ==> x in todo || least <= x
      decreases todo
    {
      var x :| x in todo;
      if x < least {
        least := x;
      }
      todo := todo - {x};
    }
  }

  lemma SortedIsAssembly(captured: map<string, nat>, m: map<string, Value>, c: map<nat, Value>, from: map<nat, string>,
                         keys: seq<nat>, ks: seq<string>)
    requires CollectedFrom(captured, m, c, from)
    requires (forall x :: x in c.Keys <==> x in keys) && forall i, j :: 0 <= i < j < |keys| ==> keys[i] < keys[j]
    requires |ks| == |keys| && forall x :: 0 <= x < |keys| ==> keys[x] in from && ks[x] == from[keys[x]]
    ensures IsAssembly(captured, ks)
  {
    forall k | k in captured
      ensures exists x :: 0 <= x < |ks| && captured[ks[x]] == captured[k]
    {
      assert captured[k] in c.Keys;
      var x :| 0 <= x < |keys| && keys[x] == captured[k];
      assert captured[ks[x]] == captured[k];
    }
  }

  /** `keys` are the collected numbers in ascending order. */
  ghost predicate InOrder(collected: map<nat, Value>, keys: seq<nat>) {
    && (forall x :: x in collected.Keys <==> x in keys)
    && (forall i :: 0 <= i < |keys| ==> keys[i] in collected)
    && forall i, j :: 0 <= i < j < |keys| ==> keys[i] < keys[j]
  }

  function ValuesAt(collected: map<nat, Value>, keys: seq<nat>): seq<Value>
    requires forall i :: 0 <= i < |keys| ==> keys[i] in collected
  {
    seq(|keys|, i requires 0 <= i < |keys| => collected[keys[i]])
  }

  /** The values of the right type, in the order of their numbers. */
  method AppendSorted(collected: map<nat, Value>, e: Elem) returns (vs: seq<Value>)
    ensures exists keys :: InOrder(collected, keys) && vs == Filter(ValuesAt(collected, keys), IsElem(e))
  {
    var sorted := SortedKeys(collected.Keys);
    assert forall i :: 0 <= i < |sorted| ==> sorted[i] in sorted;
    assert InOrder(collected, sorted);
    ghost var all := ValuesAt(collected, sorted);
    vs := [];
    for i := 0 to |sorted|
      invariant vs == Filter(all[..i], IsElem(e))
    {
      var value := collected[sorted[i]];
      assert all[..i + 1][..i] == all[..i] && all[i] == value;
      if HasElem(value, e) {
        vs := vs + [value];
      }
    }
    assert all[..|sorted|] == all;
  }

  lemma KeysHaveValues(captured: map<string, nat>, m: map<string, Value>, c: map<nat, Value>, from: map<nat, string>,
                       keys: seq<nat>, ks: seq<string>)
    requires CollectedFrom(captured, m, c, from)
    requires |ks| == |keys| && forall x :: 0 <= x < |keys| ==> keys[x] in from && ks[x] == from[keys[x]]
    ensures forall x :: 0 <= x < |ks| ==> ks[x] in m
    ensures (forall i :: 0 <= i < |keys| ==> keys[i] in c) && At(m, ks) == ValuesAt(c, keys)
  {
    forall x | 0 <= x < |ks|
      ensures ks[x] in m && m[ks[x]] == c[keys[x]]
    {
      assert from[keys[x]] in captured;
    }
  }

  method AssembleSlice(collected: map<nat, Value>, e: Elem, ghost captured: map<string, nat>,
                       ghost m: map<string, Value>, ghost from: map<nat, string>)
    returns (vs: seq<Value>)
    requires CollectedFrom(captured, m, collected, from)
    ensures exists ks :: AssemblesTo(captured, m, e, ks, vs)
  {
    vs := AppendSorted(collected, e);
    ghost var keys :| InOrder(collected, keys) && vs == Filter(ValuesAt(collected, keys), IsElem(e));
    ghost var ks := KeysFor(keys, from);
    OrderedAssembles(captured, m, e, collected, from, keys, ks);
    assert AssemblesTo(captured, m, e, ks, vs);
  }

  lemma OrderedAssembles(captured: map<string, nat>, m: map<string, Value>, e: Elem, c: map<nat, Value>,
                         from: map<nat, string>,
                         keys: seq<nat>, ks: seq<string>)
    requires CollectedFrom(captured, m, c, from) && InOrder(c, keys)
    requires |ks| == |keys| && forall x :: 0 <= x < |keys| ==> keys[x] in from && ks[x] == from[keys[x]]
    ensures AssemblesTo(captured, m, e, ks, Filter(ValuesAt(c, keys), IsElem(e)))
  {
    SortedIsAssembly(captured, m, c, from, keys, ks);
    KeysHaveValues(captured, m, c, from, keys, ks);
  }

  ghost function KeysFor(keys: seq<nat>, from: map<nat, string>): (ks: seq<string>)
    requires forall x :: 0 <= x < |keys| ==> keys[x] in from
    ensures |ks| == |keys| && forall x :: 0 <= x < |keys| ==> ks[x] == from[keys[x]]
  {
    seq(|keys|, x requires 0 <= x < |keys| => from[keys[x]])
  }

  // ---------- unmarshalling ----------

  /** The keys captured for the tag of a field that the unmarshaler looks at. */
  function CapturedAt(fields: seq<Field>, i: nat, keys: set<string>): map<string, nat>
    requires i < |fields|
  {
    if Usable(fields[i]) then Captured(fields[i], Left(fields, Owner(fields, i), keys)) else map[]
  }

  /** The keys that a field itself captures. */
  function CapturedBy(fields: seq<Field>, i: nat, keys: set<string>): map<string, nat>
    requires i < |fields|
  {
    if Usable(fields[i]) then Captured(fields[i], Left(fields, i, keys)) else map[]
  }

  /** A field that shares its tag with an earlier one finds nothing left to capture. */
  lemma NothingLeft(fields: seq<Field>, i: nat, keys: set<string>)
    requires i < |fields| && Owner(fields, i) < i
    ensures CapturedBy(fields, i, keys) == map[]
    ensures CapturedAt(fields, i, keys) == CapturedAt(fields, Owner(fields, i), keys)
  {
    var a := Owner(fields, i);
    assert Owner(fields, a) == a;
    if Usable(fields[i]) {
      forall key | Captures(fields[i], key)
        ensures ClaimedBefore(fields, i, key)
      {
        ClaimedByOwner(fields, i, key);
      }
    }
    SameTagCaptures(fields[a], fields[i], Left(fields, a, keys));
  }

  lemma ClaimedByOwner(fields: seq<Field>, i: nat, key: string)
    requires i < |fields| && Owner(fields, i) < i && Usable(fields[i]) && Captures(fields[i], key)
    ensures ClaimedBefore(fields, i, key)
  {
    assert Claims(fields[Owner(fields, i)], key);
  }

  lemma SameTagCaptures(f: Field, g: Field, left: set<string>)
    requires f.tag == g.tag
    ensures Captured(f, left) == Captured(g, left)
  {
    assert Prefix(f) == Prefix(g) && (Dynamic(f) <==> Dynamic(g));
    forall key
      ensures Captures(f, key) <==> Captures(g, key)
      ensures Captures(f, key) ==> IndexIn(f, key) == IndexIn(g, key)
    {
    }
  }

  function Taken(f: Field, keys: set<string>): set<string> {
    set key | key in keys && Claims(f, key)
  }

  lemma LeftAfter(fields: seq<Field>, i: nat, keys: set<string>)
    requires i < |fields|
    ensures Left(fields, i + 1, keys) == Left(fields, i, keys) - Taken(fields[i], Left(fields, i, keys))
  {
    forall key
      ensures ClaimedBefore(fields, i + 1, key) <==> ClaimedBefore(fields, i, key) || Claims(fields[i], key)
    {
    }
  }

  function ScalarFrom(f: Field, m: map<string, Value>): FieldValue {
    match f.kind
    case Scalar(e) => One(if Usable(f) && f.tag in m && HasElem(m[f.tag], e) then m[f.tag] else Zero(e))
    case SliceOf(_) => Many([])
  }

  /** One pass of the first loop: assign a static field, collect a dynamic one. */
  method TakeField(f: Field, m: map<string, Value>)
    returns (r: Result<FieldValue, Failure>, rest: map<string, Value>, collected: map<nat, Value>,
             ghost from: map<nat, string>)
    ensures r == if Usable(f) && f.kind.SliceOf? && f.tag in m then Err(Panic) else Ok(ScalarFrom(f, m))
    ensures r.Ok? ==> rest == m - Taken(f, m.Keys)
    ensures r.Ok? ==> CollectedFrom(if Usable(f) then Captured(f, m.Keys) else map[], m, collected, from)
  {
    rest, collected, from := m, map[], map[];
    r := Ok(ZeroOf(f.kind));
    if Usable(f) {
      if f.tag in m {
        match f.kind {
          case SliceOf(_) => return Err(Panic), rest, collected, from;
          case Scalar(e) => if HasElem(m[f.tag], e) { r := Ok(One(m[f.tag])); }
        }
        rest := rest - {f.tag};
      }
      assert Captured(f, rest.Keys) == Captured(f, m.Keys);
      if Dynamic(f) {
        collected, rest, from := CollectDynamic(f, rest);
      }
    }
    assert rest.Keys == m.Keys - Taken(f, m.Keys);
  }

  lemma CollectedFromLarger(captured: map<string, nat>, rest: map<string, Value>, m: map<string, Value>,
                            c: map<nat, Value>, from: map<nat, string>)
    requires CollectedFrom(captured, rest, c, from)
    requires forall k :: k in rest ==> k in m && rest[k] == m[k]
    ensures CollectedFrom(captured, m, c, from)
  {
  }

  /** The state of the first loop after `i` fields. */
  ghost predicate TookFields(fields: seq<Field>, m: map<string, Value>, i: nat, rest: map<string, Value>,
                             out: seq<FieldValue>,
                             dynamicFields: map<string, map<nat, Value>>, froms: seq<map<nat, string>>)
    requires i <= |fields|
  {
    && IsLeft(fields, m, i, rest)
    && |out| == |froms| == i
    && AllTook(fields, m, out, dynamicFields, froms)
    && TagsBefore(fields, i, dynamicFields)
  }

  predicate IsLeft(fields: seq<Field>, m: map<string, Value>, i: nat, rest: map<string, Value>)
    requires i <= |fields|
  {
    rest.Keys == Left(fields, i, m.Keys) && forall k :: k in rest ==> k in m && rest[k] == m[k]
  }

  ghost predicate AllTook(fields: seq<Field>, m: map<string, Value>, out: seq<FieldValue>,
                          dynamicFields: map<string, map<nat, Value>>, froms: seq<map<nat, string>>)
    requires |out| == |froms| <= |fields|
  {
    forall j :: 0 <= j < |out| ==> !Panics(fields, m, j) && TookField(fields, m, j, out[j], dynamicFields, froms[j])
  }

  predicate TagsBefore(fields: seq<Field>, i: nat, dynamicFields: map<string, map<nat, Value>>)
    requires i <= |fields|
  {
    forall tag :: tag in dynamicFields ==> TagBefore(fields, i, tag)
  }

  predicate TagBefore(fields: seq<Field>, i: nat, tag: string)
    requires i <= |fields|
  {
    exists j :: 0 <= j < i && Usable(fields[j]) && fields[j].tag == tag
  }

  function CollectedFor(tag: string, dynamicFields: map<string, map<nat, Value>>): map<nat, Value> {
    if tag in dynamicFields then dynamicFields[tag] else map[]
  }

  ghost predicate TookField(fields: seq<Field>, m: map<string, Value>, j: nat, v: FieldValue,
                            dynamicFields: map<string, map<nat, Value>>, from: map<nat, string>)
    requires j < |fields|
  {
    && (fields[j].kind.Scalar? ==> Restores(fields, m, j, v))
    && (fields[j].kind.SliceOf? ==> v == Many([]))
    && (Usable(fields[j]) ==>
          CollectedFrom(CapturedAt(fields, j, m.Keys), m, CollectedFor(fields[j].tag, dynamicFields), from))
  }

  /** Collecting for another tag does not disturb a field. */
  lemma TookFieldKeeps(fields: seq<Field>, m: map<string, Value>, j: nat, v: FieldValue,
                       dynamicFields: map<string, map<nat, Value>>, from: map<nat, string>,
                       tag: string, c: map<nat, Value>)
    requires j < |fields| && TookField(fields, m, j, v, dynamicFields, from)
    requires Usable(fields[j]) ==> fields[j].tag != tag
    ensures TookField(fields, m, j, v, dynamicFields[tag := c], from)
  {
  }

  lemma ScalarIsRestored(fields: seq<Field>, m: map<string, Value>, rest: map<string, Value>, i: nat)
    requires i < |fields| && fields[i].kind.Scalar?
    requires rest.Keys == Left(fields, i, m.Keys) && forall k :: k in rest ==> rest[k] == m[k]
    ensures Restores(fields, m, i, ScalarFrom(fields[i], rest))
  {
  }

  method TakeAll(fields: seq<Field>, m: map<string, Value>)
    returns (ok: bool, out: seq<FieldValue>, dynamicFields: map<string, map<nat, Value>>,
             ghost froms: seq<map<nat, string>>)
    ensures !ok ==> exists i :: 0 <= i < |fields| && Panics(fields, m, i)
    ensures ok ==> exists rest :: TookFields(fields, m, |fields|, rest, out, dynamicFields, froms)
  {
    var rest := m;
    out, dynamicFields, froms := [], map[], [];
    assert Left(fields, 0, m.Keys) == m.Keys;
    for i := 0 to |fields|
      invariant TookFields(fields, m, i, rest, out, dynamicFields, froms)
    {
      var f := fields[i];
      var r, rest', collected, from := TakeField(f, rest);
      if r.Err? {
        assert Panics(fields, m, i);
        return false, out, dynamicFields, froms;
      }
      LeftAfter(fields, i, m.Keys);
      CollectedFromLarger(CapturedBy(fields, i, m.Keys), rest, m, collected, from);
      if f.kind.Scalar? {
        ScalarIsRestored(fields, m, rest, i);
      }
      ghost var before := dynamicFields;
      if collected != map[] {
        dynamicFields := dynamicFields[f.tag := collected];
      }
      ghost var owned := if Owner(fields, i) < i then froms[Owner(fields, i)] else from;
      StepTook(fields, m, out, before, froms, r.value, collected, from, dynamicFields, owned);
      out, rest, froms := out + [r.value], rest', froms + [owned];
    }
    ok := true;
  }

  lemma StepTook(fields: seq<Field>, m: map<string, Value>, out: seq<FieldValue>, before: map<string, map<nat, Value>>,
                 froms: seq<map<nat, string>>, v: FieldValue, collected: map<nat, Value>, from: map<nat, string>,
                 after: map<string, map<nat, Value>>, owned: map<nat, string>)
    requires |out| == |froms| < |fields| && AllTook(fields, m, out, before, froms)
    requires TagsBefore(fields, |out|, before)
    requires !Panics(fields, m, |out|)
    requires CollectedFrom(CapturedBy(fields, |out|, m.Keys), m, collected, from)
    requires fields[|out|].kind.Scalar? ==> Restores(fields, m, |out|, v)
    requires fields[|out|].kind.SliceOf? ==> v == Many([])
    requires after == if collected == map[] then before else before[fields[|out|].tag := collected]
    requires owned == if Owner(fields, |out|) < |out| then froms[Owner(fields, |out|)] else from
    ensures AllTook(fields, m, out + [v], after, froms + [owned]) && TagsBefore(fields, |out| + 1, after)
  {
    UnusableCollectsNothing(fields, |out|, m, collected, from);
    if Owner(fields, |out|) < |out| {
      SharedTook(fields, m, out, before, froms, v, collected, from);
      OneMoreTook(fields, m, out, after, froms, v, owned);
    } else {
      TagIsNew(fields, |out|, before);
      AllTookStep(fields, m, out, before, froms, v, collected, from, after);
    }
    TagsTook(fields, |out|, before, collected, after);
  }

  lemma SharedTook(fields: seq<Field>, m: map<string, Value>, out: seq<FieldValue>,
                   before: map<string, map<nat, Value>>,
                   froms: seq<map<nat, string>>, v: FieldValue, collected: map<nat, Value>, from: map<nat, string>)
    requires |out| == |froms| < |fields| && AllTook(fields, m, out, before, froms) && Owner(fields, |out|) < |out|
    requires CollectedFrom(CapturedBy(fields, |out|, m.Keys), m, collected, from)
    requires fields[|out|].kind.Scalar? ==> Restores(fields, m, |out|, v)
    requires fields[|out|].kind.SliceOf? ==> v == Many([])
    ensures collected == map[]
    ensures TookField(fields, m, |out|, v, before, froms[Owner(fields, |out|)])
  {
    var a := Owner(fields, |out|);
    NothingLeft(fields, |out|, m.Keys);
    assert forall x :: x !in from;
    assert collected.Keys == {};
    assert TookField(fields, m, a, out[a], before, froms[a]);
  }

  lemma AllTookStep(fields: seq<Field>, m: map<string, Value>, out: seq<FieldValue>,
                    before: map<string, map<nat, Value>>,
                    froms: seq<map<nat, string>>, v: FieldValue, collected: map<nat, Value>, from: map<nat, string>,
                    after: map<string, map<nat, Value>>)
    requires |out| == |froms| < |fields| && AllTook(fields, m, out, before, froms)
    requires !Panics(fields, m, |out|) && fields[|out|].tag !in before && Owner(fields, |out|) == |out|
    requires CollectedFrom(CapturedBy(fields, |out|, m.Keys), m, collected, from)
    requires fields[|out|].kind.Scalar? ==> Restores(fields, m, |out|, v)
    requires fields[|out|].kind.SliceOf? ==> v == Many([])
    requires after == if collected == map[] then before else before[fields[|out|].tag := collected]
    ensures AllTook(fields, m, out + [v], after, froms + [from])
  {
    NowTook(fields, m, |out|, v, before, collected, from, after);
    if collected != map[] {
      OthersKeep(fields, m, out, before, froms, fields[|out|].tag, collected);
    }
    OneMoreTook(fields, m, out, after, froms, v, from);
  }

  lemma OthersKeep(fields: seq<Field>, m: map<string, Value>, out: seq<FieldValue>,
                   before: map<string, map<nat, Value>>, froms: seq<map<nat, string>>, tag: string, c: map<nat, Value>)
    requires |out| == |froms| <= |fields| && AllTook(fields, m, out, before, froms)
    requires forall j :: 0 <= j < |out| && Usable(fields[j]) ==> fields[j].tag != tag
    ensures AllTook(fields, m, out, before[tag := c], froms)
  {
    forall j | 0 <= j < |out|
      ensures TookField(fields, m, j, out[j], before[tag := c], froms[j])
    {
      TookFieldKeeps(fields, m, j, out[j], before, froms[j], tag, c);
    }
  }

  lemma OneMoreTook(fields: seq<Field>, m: map<string, Value>, out: seq<FieldValue>,
                    after: map<string, map<nat, Value>>,
                    froms: seq<map<nat, string>>, v: FieldValue, from: map<nat, string>)
    requires |out| == |froms| < |fields| && AllTook(fields, m, out, after, froms)
    requires !Panics(fields, m, |out|) && TookField(fields, m, |out|, v, after, from)
    ensures AllTook(fields, m, out + [v], after, froms + [from])
  {
    forall j | 0 <= j < |out| + 1
      ensures !Panics(fields, m, j) && TookField(fields, m, j, (out + [v])[j], after, (froms + [from])[j])
    {
      if j < |out| {
        assert (out + [v])[j] == out[j] && (froms + [from])[j] == froms[j];
      }
    }
  }

  lemma TagsTook(fields: seq<Field>, i: nat, before: map<string, map<nat, Value>>, collected: map<nat, Value>,
                 after: map<string, map<nat, Value>>)
    requires i < |fields| && TagsBefore(fields, i, before)
    requires Usable(fields[i]) || collected == map[]
    requires after == if collected == map[] then before else before[fields[i].tag := collected]
    ensures TagsBefore(fields, i + 1, after)
  {
    forall tag | tag in after
      ensures TagBefore(fields, i + 1, tag)
    {
      if tag in before {
        assert TagBefore(fields, i, tag);
      } else {
        assert fields[i].tag == tag;
      }
    }
  }

  lemma NowTook(fields: seq<Field>, m: map<string, Value>, i: nat, v: FieldValue, before: map<string, map<nat, Value>>,
                collected: map<nat, Value>, from: map<nat, string>, after: map<string, map<nat, Value>>)
    requires i < |fields| && (Usable(fields[i]) ==> fields[i].tag !in before)
    requires CollectedFrom(CapturedAt(fields, i, m.Keys), m, collected, from)
    requires fields[i].kind.Scalar? ==> Restores(fields, m, i, v)
    requires fields[i].kind.SliceOf? ==> v == Many([])
    requires after == if collected == map[] then before else before[fields[i].tag := collected]
    ensures TookField(fields, m, i, v, after, from)
  {
    assert Usable(fields[i]) ==> CollectedFor(fields[i].tag, after) == collected;
  }

  lemma UnusableCollectsNothing(fields: seq<Field>, i: nat, m: map<string, Value>, collected: map<nat, Value>,
                                from: map<nat, string>)
    requires i < |fields| && CollectedFrom(CapturedBy(fields, i, m.Keys), m, collected, from)
    ensures !Usable(fields[i]) ==> collected == map[]
  {
    if !Usable(fields[i]) {
      assert forall x :: x !in from;
      assert collected.Keys == {};
    }
  }

  lemma TagIsNew(fields: seq<Field>, i: nat, before: map<string, map<nat, Value>>)
    requires i < |fields| && TagsBefore(fields, i, before) && Owner(fields, i) == i
    ensures fields[i].tag !in before
  {
    assert fields[i].tag in before ==> TagBefore(fields, i, fields[i].tag);
  }

  lemma SliceIsRestored(fields: seq<Field>, m: map<string, Value>, i: nat, vs: seq<Value>)
    requires i < |fields| && Usable(fields[i]) && fields[i].kind.SliceOf? && !Panics(fields, m, i)
    requires exists ks :: AssemblesTo(CapturedAt(fields, i, m.Keys), m, fields[i].kind.elem, ks, vs)
    ensures Restores(fields, m, i, Many(vs))
  {
  }

  /** One pass of the second loop: a collected slice is assembled, and any other field stays as it is. */
  method FillField(fields: seq<Field>, m: map<string, Value>, i: nat, v: FieldValue,
                   dynamicFields: map<string, map<nat, Value>>, ghost from: map<nat, string>)
    returns (v': FieldValue)
    requires i < |fields| && !Panics(fields, m, i) && TookField(fields, m, i, v, dynamicFields, from)
    ensures Restores(fields, m, i, v')
  {
    var f := fields[i];
    v' := v;
    if f.kind.SliceOf? && Usable(f) {
      var vs := AssembleSlice(CollectedFor(f.tag, dynamicFields), f.kind.elem, CapturedAt(fields, i, m.Keys), m, from);
      SliceIsRestored(fields, m, i, vs);
      v' := Many(vs);
    }
  }

  method FillAll(fields: seq<Field>, m: map<string, Value>, taken: seq<FieldValue>,
                 dynamicFields: map<string, map<nat, Value>>, ghost froms: seq<map<nat, string>>)
    returns (out: seq<FieldValue>)
    requires |taken| == |froms| == |fields| && AllTook(fields, m, taken, dynamicFields, froms)
    ensures Unmarshals(fields, m, out)
  {
    out := taken;
    for i := 0 to |fields|
      invariant |out| == |fields|
      invariant forall j :: 0 <= j < i ==> Restores(fields, m, j, out[j])
      invariant forall j :: i <= j < |fields| ==> out[j] == taken[j]
    {
      var v := FillField(fields, m, i, out[i], dynamicFields, froms[i]);
      out := out[i := v];
    }
  }

  /**
   * UnmarshalRequest, from the normalized map on: it fails only where the reflective assignment panics, and otherwise
   * every field comes out as one of the values its captured keys allow.
   */
  method UnmarshalRequest(fields: seq<Field>, m: map<string, Value>) returns (r: Result<seq<FieldValue>, Failure>)
    ensures r.Ok? ==> Unmarshals(fields, m, r.value)
    ensures r.Err? <==> exists i :: 0 <= i < |fields| && Panics(fields, m, i)
  {
    var ok, out, dynamicFields, froms := TakeAll(fields, m);
    if !ok {
      return Err(Panic);
    }
    out := FillAll(fields, m, out, dynamicFields, froms);
    r := Ok(out);
  }
}
