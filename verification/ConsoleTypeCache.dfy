/** The cache of which PIDs play on which console type. */
module ConsoleTypeCache {
  import opened Options
  import opened TtlCache

  datatype User = User(pid: int, consoleType: int)

  const TTL := 300_000_000_000
  const ALL_TYPES := -1

  function PidsOf(users: seq<User>, consoleType: int): set<int> {
    set u | u in users && u.consoleType == consoleType :: u.pid
  }

  /** The fetch of GetPIDsByConsoleType: a pass over the users the filter selects. */
  method FetchPids(users: seq<User>, consoleType: int) returns (pids: set<int>)
    ensures pids == PidsOf(users, consoleType)
    ensures forall pid :: pid in pids <==> exists u :: u in users && u.consoleType == consoleType && u.pid == pid
  {
    pids := {};
    for i := 0 to |users|
      invariant pids == PidsOf(users[..i], consoleType)
    {
      assert users[..i + 1] == users[..i] + [users[i]];
      if users[i].consoleType == consoleType {
        pids := pids + {users[i].pid};
      }
    }
    assert users[..|users|] == users;
  }

  /** Values and expiry times are kept in two maps. */
  class ConsoleTypePIDsCache {
    var pids: map<int, set<int>>
    var expiry: map<int, int>

    constructor ()
      ensures Valid() && View() == map[]
    {
      pids, expiry := map[], map[];
    }

    ghost predicate Valid()
      reads this
    {
      pids.Keys == expiry.Keys
    }

    ghost function View(): Cache<int, set<int>>
      requires Valid()
      reads this
    {
      map k | k in pids :: Entry(pids[k], expiry[k])
    }

    method Check(consoleType: int, now: int) returns (hit: Option<set<int>>)
      requires Valid()
      ensures hit == Lookup(View(), consoleType, now)
    {
      hit := None;
      if consoleType in pids {
        if now < expiry[consoleType] {
          hit := Some(pids[consoleType]);
        }
      }
    }

    method Store(consoleType: int, found: set<int>, now: int)
      requires Valid()
      modifies this
      ensures Valid() && View() == Stored(old(View()), consoleType, found, now + 300_000_000_000)
    {
      pids := pids[consoleType := found];
      expiry := expiry[consoleType := now + TTL];
    }

    method InvalidateConsoleTypePIDsCache(consoleType: int)
      requires Valid()
      modifies this
      ensures Valid()
      ensures View() == if consoleType == -1 then map[] else Invalidated(old(View()), consoleType)
    {
      if consoleType == ALL_TYPES {
        pids, expiry := map[], map[];
      } else {
        pids := pids - {consoleType};
        expiry := expiry - {consoleType};
      }
    }
  }

  type PidRun = Run<seq<User>, int, int, set<int>>

  function PidService(): Service<seq<User>, int, int, set<int>> {
    Service((consoleType: int) => consoleType, (users: seq<User>, consoleType: int) => PidsOf(users, consoleType), TTL)
  }

  /**
   * A call returns exactly the users its console type had at one instant, at most five minutes plus a fetch ago.
   */
  lemma ReturnsASnapshot(r: PidRun, n: nat, consoleType: int, pids: set<int>, delay: int)
    requires Valid(PidService(), r) && Returns(PidService(), r, n, consoleType, pids) && StoresWithin(r, delay)
    ensures exists i: nat :: i < n && pids == PidsOf(r.states[i].db, consoleType)
                             && r.states[n].now - r.states[i].now < 300_000_000_000 + delay
  {
    BoundedStaleness(PidService(), r, n, consoleType, pids, delay);
  }

  /**
   * If no older fetch is stored after an invalidation of the type, then a membership that has been the same
   * ever since that invalidation is the membership every later call reports.
   */
  lemma ReadsReflectChange(r: PidRun, x: nat, n: nat, consoleType: int, pids: set<int>, pid: int, member: bool)
    requires Valid(PidService(), r) && x < n && Returns(PidService(), r, n, consoleType, pids)
    requires r.actions[x] == Invalidate(consoleType) || r.actions[x] == InvalidateAll
    requires NoStaleStore(PidService(), r, x, consoleType)
    requires forall i :: x < i < n ==> (pid in PidsOf(r.states[i].db, consoleType)) == member
    ensures (pid in pids) == member
  {
    FreshAfterInvalidation(PidService(), r, x, n, consoleType, pids);
  }

  /** A call in flight for the type has read a membership that is not the database's any more. */
  predicate HoldsOldPids(s: State<seq<User>, int, int, set<int>>, consoleType: int, t: nat) {
    && t in s.calls && s.calls[t].Fetched? && s.calls[t].request == consoleType
    && s.calls[t].value != PidsOf(s.db, consoleType)
  }

  /** A lookup finds a membership that is not the database's any more. */
  predicate CachesOldPids(s: State<seq<User>, int, int, set<int>>, consoleType: int) {
    match Lookup(s.cache, consoleType, s.now)
    case Some(pids) => pids != PidsOf(s.db, consoleType)
    case None => false
  }

  lemma SaysThePids(s: State<seq<User>, int, int, set<int>>, consoleType: int, pids: set<int>)
    ensures Says(PidService(), s.db, consoleType, pids) <==> pids == PidsOf(s.db, consoleType)
  {
    assert PidService().key(consoleType) == consoleType;
    assert PidService().fetch(s.db, consoleType) == PidsOf(s.db, consoleType);
  }

  /**
   * After any step, for one a change of a user's type, all calls that begin later see the type's members as of then or
   * later, in every continuation, if and only if neither the cache nor a call in flight holds other ones.
   */
  lemma ChangeIsSeenIff(r: PidRun, consoleType: int)
    requires Valid(PidService(), r)
    ensures var s := r.states[|r.actions|];
            PromiseKept(PidService(), r, consoleType)
            <==> !CachesOldPids(s, consoleType) && forall t :: !HoldsOldPids(s, consoleType, t)
  {
    var s := r.states[|r.actions|];
    PromiseIff(PidService(), r, consoleType);
    forall pids
      ensures Says(PidService(), s.db, consoleType, pids) <==> pids == PidsOf(s.db, consoleType)
    {
      SaysThePids(s, consoleType, pids);
    }
    forall t
      ensures HoldsOldPids(s, consoleType, t)
              <==> InFlight(PidService(), s, consoleType, t)
                   && !Says(PidService(), s.db, consoleType, s.calls[t].value)
    {
    }
    assert NoStaleEntry(PidService(), s, consoleType) <==> !CachesOldPids(s, consoleType);
  }

  /**
   * So an invalidation makes all later calls see what has changed, if and only if no call in flight has read
   * before it.
   */
  lemma InvalidationWorksIff(r: PidRun, consoleType: int)
    requires Valid(PidService(), r) && r.actions != []
    requires r.actions[|r.actions| - 1] == Invalidate(consoleType) || r.actions[|r.actions| - 1] == InvalidateAll
    ensures PromiseKept(PidService(), r, consoleType)
            <==> forall t :: !HoldsOldPids(r.states[|r.actions|], consoleType, t)
  {
    var end := |r.actions|;
    ChangeIsSeenIff(r, consoleType);
    assert r.states[end] == Apply(PidService(), r.states[end - 1], r.actions[end - 1]);
  }

  // ---------- an invalidation before the change ----------

  /** A login invalidates both types and then writes the new one; a call in between caches the old members again. */
  function EarlyActions(pid: int, from: int, to: int): seq<Action<seq<User>, int, int>> {
    [Invalidate(from), Invalidate(to), Check(1, from), Read(1), Store(1), Write([User(pid, to)]), Check(2, from)]
  }

  function EarlyStates(pid: int, from: int, to: int): seq<State<seq<User>, int, int, set<int>>> {
    var before, after := [User(pid, from)], [User(pid, to)];
    var stored := map[from := Entry({pid}, TTL)];
    [State(0, before, map[], map[]), State(0, before, map[], map[]), State(0, before, map[], map[]),
     State(0, before, map[], map[1 := Missed(from)]), State(0, before, map[], map[1 := Fetched(from, {pid})]),
     State(0, before, stored, map[]), State(0, after, stored, map[]), State(0, after, stored, map[])]
  }

  lemma EarlyStep(pid: int, from: int, to: int, n: nat)
    requires from != to && n < 7
    ensures Enabled(EarlyStates(pid, from, to)[n], EarlyActions(pid, from, to)[n])
    ensures EarlyStates(pid, from, to)[n + 1]
         == Apply(PidService(), EarlyStates(pid, from, to)[n], EarlyActions(pid, from, to)[n])
  {
    var s := EarlyStates(pid, from, to)[n];
    if n == 3 {
      assert PidsOf([User(pid, from)], from) == {pid};
      assert s.calls[1 := Fetched(from, {pid})] == map[1 := Fetched(from, {pid})];
    } else if n == 4 {
      assert s.calls - {1} == map[];
    }
  }

  /** So the user still counts as a member of the old type, although no fetch was in flight at the invalidations. */
  lemma InvalidationCanBeTooEarly(pid: int, from: int, to: int)
    requires from != to
    ensures var r := Run(EarlyStates(pid, from, to), EarlyActions(pid, from, to));
            && Valid(PidService(), r)
            && r.actions[0] == Invalidate(from) && r.states[0].calls == map[] && r.actions[5] == Write([User(pid, to)])
            && pid !in PidsOf(r.states[6].db, from) && Returns(PidService(), r, 6, from, {pid})
  {
    var r := Run(EarlyStates(pid, from, to), EarlyActions(pid, from, to));
    forall n | 0 <= n < 7
      ensures Enabled(r.states[n], r.actions[n]) && r.states[n + 1] == Apply(PidService(), r.states[n], r.actions[n])
    {
      EarlyStep(pid, from, to, n);
    }
    assert PidService().key(from) == from;
  }

  /** Invalidating one type does not change what a lookup of another finds. */
  lemma InvalidationIsLocal(r: PidRun, n: nat, other: int, consoleType: int)
    requires Valid(PidService(), r) && n < |r.actions| && r.actions[n] == Invalidate(other) && other != consoleType
    ensures Lookup(r.states[n + 1].cache, consoleType, r.states[n + 1].now)
         == Lookup(r.states[n].cache, consoleType, r.states[n].now)
  {
    assert r.states[n + 1] == Apply(PidService(), r.states[n], r.actions[n]);
  }
}
