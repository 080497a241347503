/** Filtering, counting and summing over sequences. */
module Seqs {

  function Filter<T(!new)>(s: seq<T>, p: T -> bool): (r: seq<T>)
    ensures |r| <= |s|
  {
    if s == [] then []
    else Filter(s[..|s| - 1], p) + (if p(s[|s| - 1]) then [s[|s| - 1]] else [])
  }

  function Count<T(!new)>(s: seq<T>, p: T -> bool): (n: nat)
    ensures n <= |s|
  {
    if s == [] then 0
    else Count(s[..|s| - 1], p) + (if p(s[|s| - 1]) then 1 else 0)
  }

  function Sum<T(!new)>(s: seq<T>, f: T -> int): int {
    if s == [] then 0 else Sum(s[..|s| - 1], f) + f(s[|s| - 1])
  }

  lemma Associative<T>(a: seq<T>, b: seq<T>, c: seq<T>)
    ensures a + (b + c) == (a + b) + c
  {
  }

  lemma {:induction false} FilterMembers<T(!new)>(s: seq<T>, p: T -> bool)
    ensures forall x :: x in Filter(s, p) <==> x in s && p(x)
  {
    if s == [] {
    } else {
      FilterMembers(s[..|s| - 1], p);
      assert s == s[..|s| - 1] + [s[|s| - 1]];
    }
  }

  lemma FilterNext<T(!new)>(s: seq<T>, i: nat, p: T -> bool)
    requires i < |s|
    ensures Filter(s[..i + 1], p) == if p(s[i]) then Filter(s[..i], p) + [s[i]] else Filter(s[..i], p)
  {
    assert s[..i + 1][..i] == s[..i];
  }

  lemma {:induction false} FilterConcat<T(!new)>(s: seq<T>, t: seq<T>, p: T -> bool)
    ensures Filter(s + t, p) == Filter(s, p) + Filter(t, p)
  {
    if t == [] {
      assert s + t == s;
    } else {
      var k := |t| - 1;
      assert (s + t)[..|s| + k] == s + t[..k];
      FilterConcat(s, t[..k], p);
      var last := if p(t[k]) then [t[k]] else [];
      assert Filter(s + t, p) == Filter(s + t[..k], p) + last;
      Associative(Filter(s, p), Filter(t[..k], p), last);
    }
  }

  /** Filtering twice is filtering by both. */
  lemma {:induction false} FilterFilter<T(!new)>(s: seq<T>, p: T -> bool, q: T -> bool, both: T -> bool)
    requires forall x :: x in s ==> (both(x) <==> p(x) && q(x))
    ensures Filter(Filter(s, p), q) == Filter(s, both)
  {
    if s == [] {
    } else {
      var k := |s| - 1;
      FilterFilter(s[..k], p, q, both);
      FilterConcat(Filter(s[..k], p), if p(s[k]) then [s[k]] else [], q);
      assert p(s[k]) ==> Filter([s[k]], q) == if q(s[k]) then [s[k]] else [];
    }
  }

  lemma {:induction false} FilterAgree<T(!new)>(s: seq<T>, p: T -> bool, q: T -> bool)
    requires forall x :: x in s ==> (p(x) <==> q(x))
    ensures Filter(s, p) == Filter(s, q)
  {
    if s == [] {
    } else {
      FilterAgree(s[..|s| - 1], p, q);
    }
  }

  lemma {:induction false} FilterAll<T(!new)>(s: seq<T>, p: T -> bool)
    requires forall x :: x in s ==> p(x)
    ensures Filter(s, p) == s
  {
    if s == [] {
    } else {
      FilterAll(s[..|s| - 1], p);
    }
  }

  lemma {:induction false} CountConcat<T(!new)>(s: seq<T>, t: seq<T>, p: T -> bool)
    ensures Count(s + t, p) == Count(s, p) + Count(t, p)
  {
    if t == [] {
      assert s + t == s;
    } else {
      var k := |t| - 1;
      assert (s + t)[..|s| + k] == s + t[..k];
      CountConcat(s, t[..k], p);
    }
  }

  lemma {:induction false} CountFilter<T(!new)>(s: seq<T>, p: T -> bool, q: T -> bool)
    ensures Count(Filter(s, p), q) <= Count(s, q)
  {
    if s == [] {
    } else {
      var k := |s| - 1;
      CountFilter(s[..k], p, q);
      CountConcat(Filter(s[..k], p), if p(s[k]) then [s[k]] else [], q);
    }
  }

  lemma {:induction false} CountNone<T(!new)>(s: seq<T>, p: T -> bool)
    ensures Count(s, p) == 0 <==> forall x :: x in s ==> !p(x)
  {
    if s == [] {
    } else {
      CountNone(s[..|s| - 1], p);
      assert forall x :: x in s <==> x in s[..|s| - 1] || x == s[|s| - 1];
    }
  }

  lemma {:induction false} CountPointwise<T(!new)>(s: seq<T>, t: seq<T>, p: T -> bool, q: T -> bool)
    requires |s| == |t| && forall i :: 0 <= i < |s| && p(s[i]) ==> q(t[i])
    ensures Count(s, p) <= Count(t, q)
  {
    if s == [] {
    } else {
      CountPointwise(s[..|s| - 1], t[..|t| - 1], p, q);
    }
  }

  lemma {:induction false} CountIsFilterLength<T(!new)>(s: seq<T>, p: T -> bool)
    ensures Count(s, p) == |Filter(s, p)|
  {
    if s == [] {
    } else {
      CountIsFilterLength(s[..|s| - 1], p);
    }
  }

  lemma CountWithout<T(!new)>(t: seq<T>, i: nat, p: T -> bool)
    requires i < |t|
    ensures Count(t, p) == Count(t[..i] + t[i + 1..], p) + if p(t[i]) then 1 else 0
  {
    CountConcat(t[..i], t[i + 1..], p);
    CountConcat(t[..i + 1], t[i + 1..], p);
    assert t == t[..i + 1] + t[i + 1..] && t[..i + 1][..i] == t[..i];
  }

  lemma MultisetWithout<T(!new)>(t: seq<T>, i: nat)
    requires i < |t|
    ensures multiset(t[..i] + t[i + 1..]) == multiset(t) - multiset{t[i]}
  {
    assert t == t[..i] + [t[i]] + t[i + 1..];
  }

  /** Two permutations of one collection count the same. */
  lemma {:induction false} CountPermutation<T(!new)>(s: seq<T>, t: seq<T>, p: T -> bool)
    requires multiset(s) == multiset(t)
    ensures Count(s, p) == Count(t, p)
    decreases |s|
  {
    assert |s| == |multiset(s)| == |multiset(t)| == |t|;
    if s == [] {
    } else {
      var k := |s| - 1;
      assert s[k] in multiset(t);
      var i :| 0 <= i < |t| && t[i] == s[k];
      assert s[..k] + s[k + 1..] == s[..k];
      MultisetWithout(s, k);
      MultisetWithout(t, i);
      CountPermutation(s[..k], t[..i] + t[i + 1..], p);
      CountWithout(t, i, p);
    }
  }

  /** Filtering away only what is not counted keeps the count. */
  lemma {:induction false} CountFilterSame<T(!new)>(s: seq<T>, p: T -> bool, q: T -> bool)
    requires forall x :: x in s && q(x) ==> p(x)
    ensures Count(Filter(s, p), q) == Count(s, q)
  {
    if s == [] {
    } else {
      var k := |s| - 1;
      assert s[k] in s;
      CountFilterSame(s[..k], p, q);
      CountConcat(Filter(s[..k], p), if p(s[k]) then [s[k]] else [], q);
    }
  }

  lemma {:induction false} CountOne<T(!new)>(s: seq<T>, p: T -> bool, x: T, y: T)
    requires Count(s, p) <= 1 && x in s && y in s && p(x) && p(y)
    ensures x == y
  {
    var k := |s| - 1;
    assert forall z :: z in s <==> z in s[..k] || z == s[k];
    if p(s[k]) {
      CountNone(s[..k], p);
    } else {
      CountOne(s[..k], p, x, y);
    }
  }

  lemma CountUpdate<T(!new)>(s: seq<T>, k: nat, x: T, p: T -> bool)
    requires k < |s|
    ensures Count(s[k := x], p) == Count(s, p) - (if p(s[k]) then 1 else 0) + if p(x) then 1 else 0
  {
    CountWithout(s, k, p);
    CountWithout(s[k := x], k, p);
    assert s[k := x][..k] + s[k := x][k + 1..] == s[..k] + s[k + 1..];
  }

  // ---------- indices ----------

  /** Indices below `n`, in order. */
  predicate Ascending(steps: seq<nat>, n: nat) {
    && (forall i, j :: 0 <= i < j < |steps| ==> steps[i] < steps[j])
    && (forall i :: 0 <= i < |steps| ==> steps[i] < n)
  }

  lemma AscendsWith(steps: seq<nat>, n: nat)
    requires Ascending(steps, n)
    ensures Ascending(steps + [n], n + 1)
  {
  }

  lemma AscendsWithout(steps: seq<nat>, k: nat, n: nat)
    requires Ascending(steps, n) && k < |steps|
    ensures Ascending(steps[..k] + steps[k + 1..], n)
  {
    var rest := steps[..k] + steps[k + 1..];
    assert forall i :: 0 <= i < |rest| ==> rest[i] == steps[if i < k then i else i + 1];
  }

  /** These are the indices that satisfy a predicate, in order, and the elements there. */
  ghost predicate Picks<T(!new)>(idx: seq<nat>, s: seq<T>, p: T -> bool, picked: seq<T>) {
    && Ascending(idx, |s|)
    && (forall i: nat {:trigger i in idx} :: i in idx <==> i < |s| && p(s[i]))
    && |picked| == |idx|
    && forall j :: 0 <= j < |idx| ==> picked[j] == s[idx[j]]
  }

  lemma PicksNext<T(!new)>(before: seq<nat>, s: seq<T>, x: T, p: T -> bool, picked: seq<T>) returns (idx: seq<nat>)
    requires Picks(before, s, p, picked)
    ensures Picks(idx, s + [x], p, picked + if p(x) then [x] else [])
  {
    AscendsWith(before, |s|);
    if p(x) {
      idx := before + [|s|];
      forall i: nat
        ensures i in idx <==> i < |s| + 1 && p((s + [x])[i])
      {
        assert i in idx <==> i in before || i == |s|;
        assert i < |s| ==> (s + [x])[i] == s[i];
      }
    } else {
      idx := before;
      assert forall i :: 0 <= i < |s| ==> (s + [x])[i] == s[i];
    }
  }

  /** Filtering picks the elements at the indices that satisfy the predicate, in their order. */
  lemma {:induction false} FilterIndices<T(!new)>(s: seq<T>, p: T -> bool) returns (idx: seq<nat>)
    ensures Picks(idx, s, p, Filter(s, p))
  {
    if s == [] {
      idx := [];
    } else {
      var k := |s| - 1;
      var before := FilterIndices(s[..k], p);
      idx := PicksNext(before, s[..k], s[k], p, Filter(s[..k], p));
      assert s[..k] + [s[k]] == s;
    }
  }

  ghost function Satisfying<T(!new)>(s: seq<T>, p: T -> bool): set<int> {
    set i: int | 0 <= i < |s| && p(s[i])
  }

  /** Counting gives the number of indices that satisfy the predicate. */
  lemma {:induction false} CountIndices<T(!new)>(s: seq<T>, p: T -> bool)
    ensures Count(s, p) == |Satisfying(s, p)|
  {
    if s == [] {
      assert Satisfying(s, p) == {};
    } else {
      var k := |s| - 1;
      CountIndices(s[..k], p);
      assert Satisfying(s, p) == Satisfying(s[..k], p) + if p(s[k]) then {k} else {};
    }
  }

  lemma CountIsSize<T(!new)>(s: seq<T>, p: T -> bool, idx: set<int>)
    requires forall i: int :: i in idx <==> 0 <= i < |s| && p(s[i])
    ensures Count(s, p) == |idx|
  {
    CountIndices(s, p);
    assert idx == Satisfying(s, p);
  }

  lemma CountTwo<T(!new)>(s: seq<T>, p: T -> bool, i: nat, j: nat)
    requires i < j < |s| && p(s[i]) && p(s[j])
    ensures Count(s, p) >= 2
  {
    CountWithout(s, j, p);
    CountNone(s[..j] + s[j + 1..], p);
    assert (s[..j] + s[j + 1..])[i] == s[i];
  }

  lemma CountAgree<T(!new)>(s: seq<T>, p: T -> bool, q: T -> bool)
    requires forall x :: x in s ==> (p(x) <==> q(x))
    ensures Count(s, p) == Count(s, q)
  {
    CountPointwise(s, s, p, q);
    CountPointwise(s, s, q, p);
  }

  lemma {:induction false} SumConcat<T(!new)>(s: seq<T>, t: seq<T>, f: T -> int)
    ensures Sum(s + t, f) == Sum(s, f) + Sum(t, f)
    ensures forall x: T :: Sum([x], f) == f(x)
  {
    assert forall x: T :: [x][..0] == [];
    if t == [] {
      assert s + t == s;
    } else {
      var k := |t| - 1;
      assert (s + t)[..|s| + k] == s + t[..k];
      SumConcat(s, t[..k], f);
    }
  }
}
