/** An exact test on the tags of a struct type for whether it round-trips. */
module TagTest {
  import opened Options
  import opened Decimals
  import opened Marshaler
  import opened MarshalerRoundTrip

  // ---------- the test ----------

  /** The string is a slice's numeral. */
  predicate IsNumeral(s: string) {
    AllDigits(s) && |s| >= 3 && (|s| == 3 || s[0] != '0') && Parse(s) < MAX_LEN
  }

  /** A longer numeral begins with these digits. */
  predicate LeadsNumeral(s: string) {
    AllDigits(s) && (|s| <= 2 || (s[0] != '0' && 10 * Parse(s) < MAX_LEN))
  }

  /** The field `f` claims a name of `g`. */
  predicate Takes(f: Field, g: Field) {
    match g.kind
    case Scalar(_) => Claims(f, ScalarName(g))
    case SliceOf(_) => Usable(f) && (TagIsName(f, g) || (Dynamic(f) && (CutsPrefix(f, g) || CutsNumeral(f, g))))
  }

  predicate TagIsName(f: Field, g: Field) {
    Prefix(g) <= f.tag && IsNumeral(f.tag[|Prefix(g)|..])
  }

  /** The prefix of `f` ends within that of `g`, and the digits after it leave room for a number. */
  predicate CutsPrefix(f: Field, g: Field) {
    Prefix(f) <= Prefix(g) && 1000 * Parse(TrailingDigits(Prefix(g)[|Prefix(f)|..])) < INT_LIMIT
  }

  /** The prefix of `f` is that of `g` and the first digits of a numeral. */
  predicate CutsNumeral(f: Field, g: Field) {
    Prefix(g) <= Prefix(f) && LeadsNumeral(Prefix(f)[|Prefix(g)|..])
  }

  predicate PassesTest(fields: seq<Field>) {
    && (forall i :: 0 <= i < |fields| ==> Restorable(fields[i]))
    && TagsApart(fields)
    && (forall a, b :: 0 <= b < |fields| && 0 <= a < Owner(fields, b) ==> !Takes(fields[a], fields[b]))
  }

  // ---------- numerals ----------

  lemma {:induction false} DecimalLead(n: nat)
    ensures n > 0 ==> Decimal(n)[0] != '0'
  {
    if n < 10 {
    } else {
      DecimalLead(n / 10);
    }
  }

  /** A numeral without leading zeros is that of its value. */
  lemma {:induction false} DecimalOfParse(s: string, n: nat)
    requires AllDigits(s) && s != "" && s[0] != '0' && n == Parse(s)
    ensures n > 0 && Decimal(n) == s
  {
    var k := |s| - 1;
    if k == 0 {
      DecimalOfOnly(s, n);
    } else {
      var high := Parse(s[..k]);
      assert n == 10 * high + DigitValue(s[k]);
      DecimalOfParse(s[..k], high);
      DecimalOfLonger(s, s[..k], high, n);
    }
  }

  lemma DecimalOfOnly(s: string, n: nat)
    requires AllDigits(s) && |s| == 1 && s[0] != '0' && n == Parse(s)
    ensures n > 0 && Decimal(n) == s
  {
    DecimalOfDigit(s[0]);
    assert s == [s[0]];
  }

  lemma DecimalOfLonger(s: string, t: string, high: nat, n: nat)
    requires AllDigits(s) && s != "" && t == s[..|s| - 1] && high > 0 && Decimal(high) == t
    requires n == 10 * high + DigitValue(s[|s| - 1])
    ensures Decimal(n) == s
  {
    DecimalStep(high, s[|s| - 1]);
    assert s == t + [s[|s| - 1]];
  }

  lemma DecimalStep(n: nat, c: char)
    requires n > 0 && IsDigit(c)
    ensures Decimal(10 * n + DigitValue(c)) == Decimal(n) + [c]
  {
    var m := 10 * n + DigitValue(c);
    assert m / 10 == n && m % 10 == DigitValue(c);
  }

  lemma DecimalOfDigit(c: char)
    requires IsDigit(c)
    ensures Parse([c]) == DigitValue(c) && Decimal(Parse([c])) == [c]
    ensures c != '0' ==> Parse([c]) > 0
  {
    ParseAppend("", c);
    assert "" + [c] == [c];
  }

  lemma PadIsNumeral(j: nat)
    requires j < MAX_LEN
    ensures IsNumeral(Pad3(j)) && Parse(Pad3(j)) == j
  {
    PadHasValue(j);
    DecimalLead(j);
  }

  lemma PadOfTwo(s: string)
    requires AllDigits(s) && |s| == 2 && s[0] != '0'
    ensures Pad3(Parse("0" + s)) == "0" + s
  {
    ParseIgnoresLeadingZero(s);
    DecimalOfParse(s, Parse(s));
  }

  lemma PadOfOne(c: char)
    requires IsDigit(c)
    ensures Pad3(Parse("00" + [c])) == "00" + [c]
  {
    assert "00" + [c] == "0" + ("0" + [c]);
    ParseIgnoresLeadingZero("0" + [c]);
    ParseIgnoresLeadingZero([c]);
    DecimalOfDigit(c);
  }

  lemma PadOfParse(s: string)
    requires IsNumeral(s)
    ensures Pad3(Parse(s)) == s
  {
    if s[0] != '0' {
      DecimalOfParse(s, Parse(s));
    } else if s[1] != '0' {
      assert s == "0" + s[1..];
      PadOfTwo(s[1..]);
    } else {
      assert s == "00" + [s[2]];
      PadOfOne(s[2]);
    }
  }

  lemma {:induction false} ParseOfLonger(s: string, t: string)
    requires AllDigits(s) && AllDigits(t)
    ensures Parse(s + t) >= Parse(s)
  {
    if t == "" {
      assert s + t == s;
    } else {
      var k := |t| - 1;
      assert s + t == (s + t[..k]) + [t[k]];
      ParseAppend(s + t[..k], t[k]);
      ParseOfLonger(s, t[..k]);
    }
  }

  lemma ParseGrows(s: string, t: string)
    requires AllDigits(s) && AllDigits(t) && t != ""
    ensures Parse(s + t) >= 10 * Parse(s)
  {
    assert s + t == (s + [t[0]]) + t[1..];
    ParseAppend(s, t[0]);
    ParseOfLonger(s + [t[0]], t[1..]);
  }

  lemma ParseGrowsThrice(s: string, t: string)
    requires AllDigits(s) && AllDigits(t) && |t| >= 3
    ensures Parse(s + t) >= 1000 * Parse(s)
  {
    var s1 := s + [t[0]];
    var s2 := s1 + [t[1]];
    assert s + t == s2 + t[2..];
    ParseAppend(s, t[0]);
    ParseAppend(s1, t[1]);
    ParseGrows(s2, t[2..]);
  }

  predicate AllZeros(s: string) {
    forall i :: 0 <= i < |s| ==> s[i] == '0'
  }

  lemma {:induction false} ZerosAreRead(zeros: string)
    requires AllZeros(zeros)
    ensures AllDigits(zeros) && TrailingDigits(zeros) == zeros && Parse(zeros) == 0
  {
    if zeros == "" {
    } else {
      var k := |zeros| - 1;
      ZerosAreRead(zeros[..k]);
      assert zeros == zeros[..k] + ['0'];
      ParseAppend(zeros[..k], '0');
      AllTrailing(zeros);
    }
  }

  lemma ParseWithZero(s: string)
    requires AllDigits(s)
    ensures AllDigits(s + ['0']) && Parse(s + ['0']) == 10 * Parse(s)
  {
    ParseAppend(s, '0');
    DigitsOfJoin(s, ['0']);
    assert DigitValue('0') == 0;
  }

  lemma ParseWithZeros(s: string, zeros: string)
    requires AllDigits(s) && AllZeros(zeros) && |zeros| == 3
    ensures AllDigits(s + zeros) && Parse(s + zeros) == 1000 * Parse(s)
  {
    ParseWithZero(s);
    ParseWithTwoZeros(s + ['0']);
    ThreeZeros(s, zeros);
  }

  lemma ThreeZeros(s: string, zeros: string)
    requires AllZeros(zeros) && |zeros| == 3
    ensures s + zeros == s + ['0'] + ['0'] + ['0']
  {
  }

  lemma ParseWithTwoZeros(s: string)
    requires AllDigits(s)
    ensures AllDigits(s + ['0'] + ['0']) && Parse(s + ['0'] + ['0']) == 100 * Parse(s)
  {
    ParseWithZero(s);
    ParseWithZero(s + ['0']);
  }

  lemma {:induction false} TrailingConcat(s: string, t: string)
    requires AllDigits(t)
    ensures TrailingDigits(s + t) == TrailingDigits(s) + t
  {
    if t == "" {
      assert s + t == s;
    } else {
      var k := |t| - 1;
      TrailingConcat(s, t[..k]);
      assert (s + t)[..|s| + k] == s + t[..k];
    }
  }

  // ---------- the test is exact ----------

  lemma PrefixOfConcat(p: string, q: string, d: string)
    requires p <= q + d
    ensures p <= q || (q <= p && p[|q|..] <= d && d == p[|q|..] + (q + d)[|p|..])
  {
    if |p| <= |q| {
      assert (q + d)[..|p|] == q[..|p|];
    } else {
      assert (q + d)[..|q|] == p[..|q|] == q;
      assert (q + d)[|q|..|p|] == p[|q|..] == d[..|p| - |q|];
      assert (q + d)[|p|..] == d[|p| - |q|..];
    }
  }

  lemma CapturedCutsPrefix(f: Field, g: Field, d: string)
    requires Captures(f, Prefix(g) + d) && AllDigits(d) && |d| >= 3 && Prefix(f) <= Prefix(g)
    ensures CutsPrefix(f, g)
  {
    var p, q := Prefix(f), Prefix(g);
    var rest := q[|p|..];
    assert (q + d)[|p|..] == rest + d;
    TrailingConcat(rest, d);
    ParseGrowsThrice(TrailingDigits(rest), d);
  }

  lemma CapturedCutsNumeral(f: Field, g: Field, d: string)
    requires Captures(f, Prefix(g) + d) && IsNumeral(d) && Prefix(g) <= Prefix(f) && Prefix(f) <= Prefix(g) + d
    requires d == Prefix(f)[|Prefix(g)|..] + (Prefix(g) + d)[|Prefix(f)|..]
    ensures CutsNumeral(f, g)
  {
    var lead, rest := Prefix(f)[|Prefix(g)|..], (Prefix(g) + d)[|Prefix(f)|..];
    assert rest != "";
    DigitsOfParts(lead, rest);
    ParseGrows(lead, rest);
  }

  lemma DigitsOfParts(s: string, t: string)
    requires AllDigits(s + t)
    ensures AllDigits(s) && AllDigits(t)
  {
    assert forall i :: 0 <= i < |s| ==> (s + t)[i] == s[i];
    assert forall i :: 0 <= i < |t| ==> (s + t)[|s| + i] == t[i];
  }

  /** A captured name cuts the prefix or the numeral. */
  lemma CapturedCuts(f: Field, g: Field, j: nat)
    requires Captures(f, SliceName(g, j)) && j < MAX_LEN
    ensures CutsPrefix(f, g) || CutsNumeral(f, g)
  {
    PadIsNumeral(j);
    PrefixOfConcat(Prefix(f), Prefix(g), Pad3(j));
    if Prefix(f) <= Prefix(g) {
      CapturedCutsPrefix(f, g, Pad3(j));
    } else {
      CapturedCutsNumeral(f, g, Pad3(j));
    }
  }

  /** What completes a numeral's first digits. */
  function Completion(lead: string): (zeros: string)
    ensures zeros != "" && AllZeros(zeros)
    ensures |lead| <= 2 ==> |lead| + |zeros| == 3
    ensures |lead| >= 3 ==> |zeros| == 1
  {
    if |lead| == 0 then "000" else if |lead| == 1 then "00" else "0"
  }

  /** The numeral of the name of `g` that is taken if any is. */
  function TakenNumeral(f: Field, g: Field): string
    requires g.kind.SliceOf? && Takes(f, g)
  {
    if TagIsName(f, g) then f.tag[|Prefix(g)|..]
    else if CutsPrefix(f, g) then Completion("")
    else Prefix(f)[|Prefix(g)|..] + Completion(Prefix(f)[|Prefix(g)|..])
  }

  lemma TakenIsNumeral(f: Field, g: Field)
    requires g.kind.SliceOf? && Takes(f, g)
    ensures IsNumeral(TakenNumeral(f, g)) && Claims(f, Prefix(g) + TakenNumeral(f, g))
  {
    if TagIsName(f, g) {
      assert Prefix(g) + TakenNumeral(f, g) == f.tag;
    } else if CutsPrefix(f, g) {
      ZerosAreRead(Completion(""));
      CutPrefixIsTaken(f, g, Completion(""));
    } else {
      LeadIsTaken(f, g, Prefix(f)[|Prefix(g)|..]);
    }
  }

  lemma CutPrefixIsTaken(f: Field, g: Field, zeros: string)
    requires Usable(f) && Dynamic(f) && CutsPrefix(f, g) && AllZeros(zeros) && |zeros| == 3
    ensures Claims(f, Prefix(g) + zeros)
  {
    var p, q := Prefix(f), Prefix(g);
    var rest := q[|p|..];
    assert (q + zeros)[|p|..] == rest + zeros;
    ZerosAreRead(zeros);
    TrailingConcat(rest, zeros);
    ParseWithZeros(TrailingDigits(rest), zeros);
    assert Index(q + zeros, p).Some?;
  }

  lemma LeadIsTaken(f: Field, g: Field, lead: string)
    requires Usable(f) && Dynamic(f) && CutsNumeral(f, g) && lead == Prefix(f)[|Prefix(g)|..]
    ensures IsNumeral(lead + Completion(lead)) && Claims(f, Prefix(g) + (lead + Completion(lead)))
  {
    CompletesNumeral(lead);
    ZerosAreClaimed(f, Completion(lead));
    JoinedAgain(Prefix(g), Prefix(f), Completion(lead));
  }

  lemma JoinedAgain(q: string, p: string, zeros: string)
    requires q <= p
    ensures q + (p[|q|..] + zeros) == p + zeros
  {
    assert p == q + p[|q|..];
  }

  lemma CompletesNumeral(lead: string)
    requires LeadsNumeral(lead)
    ensures IsNumeral(lead + Completion(lead))
  {
    if |lead| >= 3 {
      LongLead(lead);
      assert Completion(lead) == ['0'];
    } else {
      DigitsOfJoin(lead, Completion(lead));
      ThreeDigits(lead + Completion(lead));
    }
  }

  lemma LongLead(lead: string)
    requires LeadsNumeral(lead) && |lead| >= 3
    ensures IsNumeral(lead + ['0'])
  {
    ParseWithZero(lead);
    assert (lead + ['0'])[0] == lead[0];
  }

  lemma DigitsOfJoin(s: string, zeros: string)
    requires AllDigits(s) && AllZeros(zeros)
    ensures AllDigits(s + zeros)
  {
    var t := s + zeros;
    assert forall i :: 0 <= i < |t| ==> t[i] == if i < |s| then s[i] else zeros[i - |s|];
  }

  lemma ZerosAreClaimed(f: Field, zeros: string)
    requires Usable(f) && Dynamic(f) && AllZeros(zeros) && zeros != ""
    ensures Claims(f, Prefix(f) + zeros)
  {
    ZerosAreRead(zeros);
    assert (Prefix(f) + zeros)[|Prefix(f)|..] == zeros;
    assert Index(Prefix(f) + zeros, Prefix(f)).Some?;
  }

  lemma ThreeDigits(s: string)
    requires AllDigits(s) && |s| == 3
    ensures Parse(s) < 1000
  {
    OneDigitMore(s, 1000);
    OneDigitMore(s[..2], 100);
    OneDigitMore(s[..1], 10);
  }

  lemma OneDigitMore(s: string, bound: nat)
    requires AllDigits(s) && s != ""
    ensures 10 * Parse(s[..|s| - 1]) + 10 <= bound ==> Parse(s) < bound
  {
  }

  /** The test says exactly whether a field claims a name of another one. */
  lemma TakesIff(f: Field, g: Field)
    ensures Takes(f, g) <==> exists key, j: nat :: IsName(g, key, j) && Claims(f, key)
  {
    if key, j: nat :| IsName(g, key, j) && Claims(f, key) {
      if g.kind.SliceOf? {
        NameIsTaken(f, g, j);
      }
    }
    if Takes(f, g) {
      if g.kind.Scalar? {
        assert IsName(g, ScalarName(g), 0);
      } else {
        var s := TakenNumeral(f, g);
        TakenIsNumeral(f, g);
        PadOfParse(s);
        assert IsName(g, Prefix(g) + s, Parse(s));
      }
    }
  }

  lemma NameIsTaken(f: Field, g: Field, j: nat)
    requires g.kind.SliceOf? && j < MAX_LEN && Claims(f, SliceName(g, j))
    ensures Takes(f, g)
  {
    if SliceName(g, j) == f.tag {
      PadIsNumeral(j);
      assert f.tag[|Prefix(g)|..] == Pad3(j);
    } else {
      CapturedCuts(f, g, j);
    }
  }

  lemma PassesIffRoundTrips(fields: seq<Field>)
    ensures PassesTest(fields) <==> RoundTrips(fields)
  {
    if PassesTest(fields) {
      forall a, b, key, j: nat | 0 <= b < |fields| && 0 <= a < Owner(fields, b) && IsName(fields[b], key, j)
        ensures !Claims(fields[a], key)
      {
        TakesIff(fields[a], fields[b]);
      }
    }
    if RoundTrips(fields) {
      forall a, b | 0 <= b < |fields| && 0 <= a < Owner(fields, b)
        ensures !Takes(fields[a], fields[b])
      {
        NothingTaken(fields, a, b);
      }
    }
  }

  lemma NothingTaken(fields: seq<Field>, a: nat, b: nat)
    requires NoCapture(fields) && b < |fields| && a < Owner(fields, b)
    ensures !Takes(fields[a], fields[b])
  {
    TakesIff(fields[a], fields[b]);
    if key, j: nat :| IsName(fields[b], key, j) && Claims(fields[a], key) {
      NoCaptureAt(fields, a, b, key, j);
    }
  }

  /** A struct type round-trips for all its values exactly when its tags pass the test. */
  lemma SurvivesIffPasses(fields: seq<Field>)
    ensures PassesTest(fields) <==> forall values :: Typed(fields, values) ==> Survives(fields, values)
  {
    PassesIffRoundTrips(fields);
    RoundTripIff(fields);
  }
}
