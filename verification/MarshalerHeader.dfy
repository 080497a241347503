/** Where each field of a struct is in the flattened lists, what a request's keys mean, and what is never set. */
module MarshalerHeader {
  import opened Options
  import opened Seqs
  import opened Decimals
  import opened Marshaler
  import opened MarshalerRoundTrip

  // ---------- the lists ----------

  lemma {:induction false} ListLengths(fields: seq<Field>, values: seq<FieldValue>)
    requires |values| == |fields|
    ensures |Names(fields, values)| == |Types(fields, values)| == |Values(values)|
  {
    if fields == [] {
    } else {
      ListLengths(fields[..|fields| - 1], values[..|fields| - 1]);
    }
  }

  /** A scalar adds its tag, or its name if it has none, its letter and its value behind those of the fields before. */
  lemma ScalarAdds(fields: seq<Field>, values: seq<FieldValue>, f: Field, v: Value)
    requires |values| == |fields|
    ensures Names(fields + [f], values + [One(v)]) == Names(fields, values) + [if f.tag == "" then f.name else f.tag]
    ensures Types(fields + [f], values + [One(v)])
         == Types(fields, values) + [if f.kind.elem.IntElem? then 'd' else 's']
    ensures Values(values + [One(v)]) == Values(values) + [v]
  {
    assert (fields + [f])[..|fields|] == fields && (values + [One(v)])[..|values|] == values;
  }

  /** A slice adds as many names, its tag without the XXX at the end and each element's number, letters and values. */
  lemma SliceAdds(fields: seq<Field>, values: seq<FieldValue>, f: Field, vs: seq<Value>)
    requires |values| == |fields|
    ensures var prefix := if |f.tag| >= 3 && f.tag[|f.tag| - 3..] == "XXX" then f.tag[..|f.tag| - 3] else f.tag;
            Names(fields + [f], values + [Many(vs)])
            == Names(fields, values) + seq(|vs|, j requires 0 <= j < |vs| => prefix + Pad3(j))
    ensures Types(fields + [f], values + [Many(vs)])
         == Types(fields, values) + seq(|vs|, _ => if f.kind.elem.IntElem? then 'd' else 's')
    ensures Values(values + [Many(vs)]) == Values(values) + vs
  {
    assert (fields + [f])[..|fields|] == fields && (values + [Many(vs)])[..|values|] == values;
    SliceNames(f, vs);
    assert seq(|vs|, _ => TypeChar(f)) == seq(|vs|, _ => if f.kind.elem.IntElem? then 'd' else 's');
  }

  lemma SliceNames(f: Field, vs: seq<Value>)
    ensures var prefix := if |f.tag| >= 3 && f.tag[|f.tag| - 3..] == "XXX" then f.tag[..|f.tag| - 3] else f.tag;
            FieldNames(f, Many(vs)) == seq(|vs|, j requires 0 <= j < |vs| => prefix + Pad3(j))
  {
  }

  /** The letters are `d` for numbers and `s` for strings, and nothing else is sent. */
  lemma {:induction false} LettersAreTypes(fields: seq<Field>, values: seq<FieldValue>)
    requires Typed(fields, values)
    ensures |Types(fields, values)| == |Values(values)|
    ensures forall k :: 0 <= k < |Values(values)| ==>
      || (Types(fields, values)[k] == 'd' && Values(values)[k].Num?)
      || (Types(fields, values)[k] == 's' && Values(values)[k].Str?)
  {
    if fields == [] {
    } else {
      var n := |fields| - 1;
      LettersAreTypes(fields[..n], values[..n]);
      assert TypedAt(fields[n], values[n]);
    }
  }

  // ---------- the keys of a request ----------

  /** The map of the two lists has the names as keys, each with the last of its values. */
  lemma {:induction false} LastValueWins(names: seq<string>, values: seq<Value>, k: nat)
    requires |names| == |values| && k < |names| && forall i :: k < i < |names| ==> names[i] != names[k]
    ensures names[k] in FromLists(names, values) && FromLists(names, values)[names[k]] == values[k]
    ensures forall key :: key in FromLists(names, values) ==> key in names
  {
    var n := |names| - 1;
    if k < n {
      LastValueWins(names[..n], values[..n], k);
    } else {
      OnlyNames(names, values);
    }
  }

  lemma {:induction false} OnlyNames(names: seq<string>, values: seq<Value>)
    requires |names| == |values|
    ensures forall key :: key in FromLists(names, values) ==> key in names
  {
    if names == [] {
    } else {
      OnlyNames(names[..|names| - 1], values[..|names| - 1]);
    }
  }

  /** A key's number is in the digits at its end, as many as there are, behind the prefix; it must fit 64 bits. */
  lemma IndexIff(prefix: string, rest: string, digits: string)
    requires AllDigits(digits) && (rest == "" || !('0' <= rest[|rest| - 1] <= '9'))
    ensures var key := prefix + rest + digits;
            && prefix <= key
            && Index(key, prefix)
               == if digits == "" || Parse(digits) >= 0x8000_0000_0000_0000 then None else Some(Parse(digits))
  {
    var key := prefix + rest + digits;
    assert key[|prefix|..] == rest + digits;
    DigitsAreTrailing(rest, digits);
  }

  lemma {:induction false} DigitsAreTrailing(rest: string, digits: string)
    requires AllDigits(digits) && (rest == "" || !('0' <= rest[|rest| - 1] <= '9'))
    ensures TrailingDigits(rest + digits) == digits
  {
    if digits == "" {
      assert rest + digits == rest;
    } else {
      var n := |digits| - 1;
      DigitsAreTrailing(rest, digits[..n]);
      assert (rest + digits)[..|rest| + n] == rest + digits[..n];
    }
  }

  /** A field collects numbered keys if its tag has XXX anywhere. */
  lemma DynamicIff(f: Field)
    ensures Dynamic(f)
            <==> exists k :: 0 <= k <= |f.tag| - 3 && f.tag[k] == 'X' && f.tag[k + 1] == 'X' && f.tag[k + 2] == 'X'
  {
    ContainsIff(f.tag);
  }

  lemma {:induction false} ContainsIff(tag: string)
    ensures ContainsXXX(tag)
            <==> exists k :: 0 <= k <= |tag| - 3 && tag[k] == 'X' && tag[k + 1] == 'X' && tag[k + 2] == 'X'
  {
    if |tag| < 3 {
    } else {
      ContainsIff(tag[1..]);
      assert tag[..3] == "XXX" <==> tag[0] == 'X' && tag[1] == 'X' && tag[2] == 'X';
      if k :| 0 <= k <= |tag| - 4 && tag[1..][k] == 'X' && tag[1..][k + 1] == 'X' && tag[1..][k + 2] == 'X' {
        assert tag[k + 1] == 'X' && tag[k + 2] == 'X' && tag[k + 3] == 'X';
      }
      if k :| 1 <= k <= |tag| - 3 && tag[k] == 'X' && tag[k + 1] == 'X' && tag[k + 2] == 'X' {
        assert tag[1..][k - 1] == 'X' && tag[1..][k] == 'X' && tag[1..][k + 1] == 'X';
      }
    }
  }

  // ---------- what stays unset ----------

  /**
   * A scalar without a usable tag, whose key is not sent or is sent with a value of another type, comes out as 0 or the
   * empty string.
   */
  lemma UnsetIsZero(fields: seq<Field>, m: map<string, Value>, i: nat, v: FieldValue)
    requires i < |fields| && fields[i].kind.Scalar? && Restores(fields, m, i, v)
    requires var f := fields[i];
             || f.tag == "" || f.tag == "-" || f.tag !in m
             || (f.kind.elem.IntElem? && !m[f.tag].Num?) || (f.kind.elem.StringElem? && !m[f.tag].Str?)
    ensures v == One(if fields[i].kind.elem.IntElem? then Num(0) else Str(""))
  {
  }

  /** A sent scalar that no earlier field takes is what was sent. */
  lemma FirstIsSet(fields: seq<Field>, m: map<string, Value>, v: FieldValue)
    requires fields != [] && fields[0].kind.Scalar? && Restores(fields, m, 0, v)
    requires var f := fields[0];
             && f.tag != "" && f.tag != "-" && f.tag in m
             && (f.kind.elem.IntElem? ==> m[f.tag].Num?) && (f.kind.elem.StringElem? ==> m[f.tag].Str?)
    ensures v == One(m[fields[0].tag])
  {
  }
}
