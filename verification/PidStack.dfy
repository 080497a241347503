/** The bounded stack of the PIDs a client has switched to, and what it means in terms of the push history. */
module PidStack {
  import opened Bytes

  const MAX_STACK := 8

  ghost predicate IsFirst(s: seq<u32>, pid: u32, k: nat) {
    k < |s| && s[k] == pid && forall i :: 0 <= i < k ==> s[i] != pid
  }

  lemma {:induction false} HasFirst(s: seq<u32>, pid: u32)
    requires pid in s
    ensures exists k: nat :: IsFirst(s, pid, k)
  {
    if pid in s[..|s| - 1] {
      HasFirst(s[..|s| - 1], pid);
      var k: nat :| IsFirst(s[..|s| - 1], pid, k);
      assert IsFirst(s, pid, k);
    } else {
      assert forall i :: 0 <= i < |s| - 1 ==> s[i] in s[..|s| - 1];
      assert IsFirst(s, pid, |s| - 1);
    }
  }

  /** The first position of a PID, or the length. */
  ghost function IndexOf(s: seq<u32>, pid: u32): (k: nat)
    ensures if pid in s then IsFirst(s, pid, k) else k == |s|
  {
    if pid in s then
      HasFirst(s, pid);
      var k: nat :| IsFirst(s, pid, k); k
    else |s|
  }

  /** The stack without a PID, at its first position. */
  ghost function Without(s: seq<u32>, pid: u32): seq<u32> {
    var k := IndexOf(s, pid);
    if k < |s| then s[..k] + s[k + 1..] else s
  }

  /** A PID that is there moves to the end; a new one goes to the end, and the oldest makes room. */
  ghost function Pushed(s: seq<u32>, pid: u32): seq<u32>
    requires |s| <= MAX_STACK
  {
    var k := IndexOf(s, pid);
    if k < |s| then s[..k] + s[k + 1..] + [pid]
    else if |s| >= MAX_STACK then s[1..] + [pid]
    else s + [pid]
  }

  ghost function AfterPushes(history: seq<u32>): (s: seq<u32>)
    ensures |s| <= MAX_STACK
  {
    if history == [] then [] else Pushed(AfterPushes(history[..|history| - 1]), history[|history| - 1])
  }

  // ---------- the declarative meaning ----------

  /** The position of the last push of a PID. */
  function LastPush(history: seq<u32>, pid: u32): (k: nat)
    requires pid in history
    ensures k < |history| && history[k] == pid
    ensures forall i :: k < i < |history| ==> history[i] != pid
  {
    var n := |history| - 1;
    if history[n] == pid then n
    else
      assert history == history[..n] + [history[n]];
      LastPush(history[..n], pid)
  }

  predicate Distinct(s: seq<u32>) {
    forall i, j :: 0 <= i < j < |s| ==> s[i] != s[j]
  }

  /** `r` lists each pushed PID once, in the order of their last pushes. */
  ghost predicate IsRecency(r: seq<u32>, history: seq<u32>) {
    && (forall pid :: pid in r <==> pid in history)
    && (forall i, j :: 0 <= i < j < |r| ==> LastPush(history, r[i]) < LastPush(history, r[j]))
  }

  function LastOf(s: seq<u32>, n: nat): seq<u32> {
    if |s| <= n then s else s[|s| - n..]
  }

  ghost function Recency(history: seq<u32>): seq<u32> {
    if history == [] then []
    else
      var pid := history[|history| - 1];
      Without(Recency(history[..|history| - 1]), pid) + [pid]
  }

  lemma LastPushOfLonger(history: seq<u32>, pid: u32, x: u32)
    requires x in history + [pid]
    ensures x == pid ==> LastPush(history + [pid], x) == |history|
    ensures x != pid ==> x in history && LastPush(history + [pid], x) == LastPush(history, x)
  {
    assert (history + [pid])[..|history|] == history;
  }

  lemma WithoutElements(r: seq<u32>, pid: u32, x: u32)
    requires Distinct(r)
    ensures x in Without(r, pid) <==> x in r && x != pid
  {
    var k := IndexOf(r, pid);
    if k < |r| {
      assert r == r[..k] + [pid] + r[k + 1..];
      assert forall i :: 0 <= i < |r| && i != k ==> r[i] != pid;
    }
  }

  lemma WithoutAt(r: seq<u32>, pid: u32, i: nat)
    requires i < |Without(r, pid)|
    ensures i + 1 < |r| || i < IndexOf(r, pid)
    ensures Without(r, pid)[i] == r[if i < IndexOf(r, pid) then i else i + 1]
  {
  }

  lemma RecencyStepOrder(h: seq<u32>, r: seq<u32>, pid: u32, i: nat, j: nat)
    requires IsRecency(r, h) && Distinct(r)
    requires i < j <= |Without(r, pid)|
    ensures var r' := Without(r, pid) + [pid];
            && r'[i] in h + [pid] && r'[j] in h + [pid]
            && LastPush(h + [pid], r'[i]) < LastPush(h + [pid], r'[j])
  {
    var kept := Without(r, pid);
    assert kept[i] in kept;
    WithoutElements(r, pid, kept[i]);
    WithoutAt(r, pid, i);
    LastPushOfLonger(h, pid, kept[i]);
    if j < |kept| {
      assert kept[j] in kept;
      WithoutElements(r, pid, kept[j]);
      WithoutAt(r, pid, j);
      LastPushOfLonger(h, pid, kept[j]);
    } else {
      LastPushOfLonger(h, pid, pid);
    }
  }

  lemma RecencyStep(h: seq<u32>, r: seq<u32>, pid: u32)
    requires IsRecency(r, h) && Distinct(r)
    ensures IsRecency(Without(r, pid) + [pid], h + [pid])
  {
    var r' := Without(r, pid) + [pid];
    forall x
      ensures x in r' <==> x in h + [pid]
    {
      WithoutElements(r, pid, x);
    }
    forall i, j | 0 <= i < j < |r'|
      ensures LastPush(h + [pid], r'[i]) < LastPush(h + [pid], r'[j])
    {
      RecencyStepOrder(h, r, pid, i, j);
    }
  }

  lemma {:induction false} RecencyIsRecency(history: seq<u32>)
    ensures IsRecency(Recency(history), history) && Distinct(Recency(history))
  {
    if history == [] {
    } else {
      var n := |history| - 1;
      var before, pid := history[..n], history[n];
      RecencyIsRecency(before);
      RecencyStep(before, Recency(before), pid);
      assert history == before + [pid];
      assert Recency(history) == Without(Recency(before), pid) + [pid];
      RecencyIsDistinct(Recency(history), history);
    }
  }

  lemma RecencyIsDistinct(r: seq<u32>, history: seq<u32>)
    requires IsRecency(r, history)
    ensures Distinct(r)
  {
    forall i, j | 0 <= i < j < |r|
      ensures r[i] != r[j]
    {
      assert r[i] in r && r[j] in r;
    }
  }

  lemma IndexAt(s: seq<u32>, pid: u32, k: nat)
    requires Distinct(s) && k < |s| && s[k] == pid
    ensures IndexOf(s, pid) == k
  {
  }

  lemma WithoutSuffix(r: seq<u32>, pid: u32, gone: nat)
    requires Distinct(r) && gone <= IndexOf(r, pid) < |r|
    ensures IndexOf(r[gone..], pid) == IndexOf(r, pid) - gone
    ensures Without(r[gone..], pid) == Without(r, pid)[gone..]
  {
    var k := IndexOf(r, pid);
    IndexAt(r[gone..], pid, k - gone);
    WithoutIs(r, pid, k);
    WithoutIs(r[gone..], pid, k - gone);
    SuffixWithout(r, k, gone);
  }

  lemma WithoutIs(r: seq<u32>, pid: u32, k: nat)
    requires IndexOf(r, pid) == k < |r|
    ensures Without(r, pid) == r[..k] + r[k + 1..]
  {
  }

  lemma SuffixWithout(r: seq<u32>, k: nat, gone: nat)
    requires gone <= k < |r|
    ensures r[gone..][..k - gone] + r[gone..][k - gone + 1..] == (r[..k] + r[k + 1..])[gone..]
  {
  }

  lemma NotInSuffix(r: seq<u32>, pid: u32, gone: nat)
    requires Distinct(r) && gone <= |r|
    requires IndexOf(r, pid) < gone || IndexOf(r, pid) == |r|
    ensures pid !in r[gone..]
  {
  }

  lemma LastOfLonger(r: seq<u32>, pid: u32, gone: nat)
    requires gone <= |r|
    requires (gone == 0 && |r| < MAX_STACK) || |r| - gone == MAX_STACK - 1
    ensures LastOf(r + [pid], MAX_STACK) == r[gone..] + [pid]
  {
    assert (r + [pid])[gone..] == r[gone..] + [pid];
  }

  lemma PushIsRecent(r: seq<u32>, pid: u32)
    requires Distinct(r)
    ensures Pushed(LastOf(r, MAX_STACK), pid) == LastOf(Without(r, pid) + [pid], MAX_STACK)
  {
    var k := IndexOf(r, pid);
    var s := LastOf(r, MAX_STACK);
    var gone := |r| - |s|;
    assert s == r[gone..];
    if gone <= k < |r| {
      WithoutSuffix(r, pid, gone);
      LastOfLonger(Without(r, pid), pid, gone);
    } else {
      NotInSuffix(r, pid, gone);
      PushOfNew(r, pid, gone);
    }
  }

  lemma PushOfNew(r: seq<u32>, pid: u32, gone: nat)
    requires gone <= |r| && pid !in r[gone..]
    requires (gone == 0 && |r| <= MAX_STACK) || |r| - gone == MAX_STACK
    requires IndexOf(r, pid) < gone || IndexOf(r, pid) == |r|
    ensures Pushed(r[gone..], pid) == LastOf(Without(r, pid) + [pid], MAX_STACK)
  {
    var k := IndexOf(r, pid);
    var s := r[gone..];
    if k < |r| {
      LastOfLonger(Without(r, pid), pid, gone);
      assert Without(r, pid)[gone..] == s[1..];
    } else if |s| < MAX_STACK {
      LastOfLonger(r, pid, 0);
    } else {
      LastOfLonger(r, pid, gone + 1);
      assert r[gone + 1..] == s[1..];
    }
  }

  lemma {:induction false} StackIsLastOfRecency(history: seq<u32>)
    ensures AfterPushes(history) == LastOf(Recency(history), MAX_STACK)
  {
    if history == [] {
    } else {
      var n := |history| - 1;
      StackIsLastOfRecency(history[..n]);
      RecencyIsRecency(history[..n]);
      PushIsRecent(Recency(history[..n]), history[n]);
    }
  }

  /** After any pushes the stack holds exactly the last eight distinct PIDs, in the order of their last pushes. */
  lemma StackIsRecent(history: seq<u32>)
    ensures IsRecency(Recency(history), history)
    ensures var r := Recency(history); AfterPushes(history) == if |r| <= 8 then r else r[|r| - 8..]
  {
    RecencyIsRecency(history);
    StackIsLastOfRecency(history);
  }

  // ---------- membership ----------

  function Elements(s: seq<u32>): set<u32> {
    set x | x in s
  }

  /** The other PIDs pushed after the last push of this one. */
  function PushedSince(history: seq<u32>, pid: u32): set<u32>
    requires pid in history
  {
    Elements(history[LastPush(history, pid) + 1..])
  }

  lemma {:induction false} SizeOfDistinct(s: seq<u32>)
    requires Distinct(s)
    ensures |Elements(s)| == |s|
  {
    if s == [] {
    } else {
      var k := |s| - 1;
      SizeOfDistinct(s[..k]);
      assert s == s[..k] + [s[k]];
      assert Elements(s) == Elements(s[..k]) + {s[k]};
    }
  }

  lemma NewerIff(history: seq<u32>, r: seq<u32>, p: nat, x: u32)
    requires IsRecency(r, history) && p < |r|
    ensures r[p] in r
    ensures x in r[p + 1..] <==> x in history[LastPush(history, r[p]) + 1..]
  {
    assert r[p] in r;
    var l := LastPush(history, r[p]);
    if x in r[p + 1..] {
      var j :| p < j < |r| && r[j] == x;
      assert history[l + 1..][LastPush(history, x) - l - 1] == x;
    }
    if x in history[l + 1..] {
      var i :| l < i < |history| && history[i] == x;
      assert x in history;
      var j :| 0 <= j < |r| && r[j] == x;
      assert i <= LastPush(history, x);
      assert r[p + 1..][j - p - 1] == x;
    }
  }

  lemma InLastOf(r: seq<u32>, p: nat, n: nat)
    requires Distinct(r) && p < |r|
    ensures r[p] in LastOf(r, n) <==> |r| - p <= n
  {
    var s := LastOf(r, n);
    var gone := |r| - |s|;
    if r[p] in s {
      var i :| 0 <= i < |s| && s[i] == r[p];
      assert r[gone + i] == r[p];
    }
    if |r| - p <= n {
      assert s[p - gone] == r[p];
    }
  }

  lemma PushedSinceSize(history: seq<u32>, r: seq<u32>, p: nat)
    requires IsRecency(r, history) && Distinct(r) && p < |r|
    ensures r[p] in r && |PushedSince(history, r[p])| == |r| - p - 1
  {
    assert r[p] in r;
    forall x
      ensures x in Elements(r[p + 1..]) <==> x in PushedSince(history, r[p])
    {
      NewerIff(history, r, p, x);
    }
    assert Elements(r[p + 1..]) == PushedSince(history, r[p]);
    SizeOfDistinct(r[p + 1..]);
  }

  /** A PID is on the stack exactly when it was pushed and fewer than eight others were pushed since. */
  lemma OnStackIff(history: seq<u32>, pid: u32)
    ensures pid in AfterPushes(history) <==> pid in history && |PushedSince(history, pid)| < 8
  {
    var r := Recency(history);
    StackIsRecent(history);
    RecencyIsRecency(history);
    if pid in history {
      assert pid in r;
      var p :| 0 <= p < |r| && r[p] == pid;
      PushedSinceSize(history, r, p);
      InLastOf(r, p, MAX_STACK);
    } else {
      assert pid !in r;
      assert forall x :: x in LastOf(r, MAX_STACK) ==> x in r;
    }
  }
}
