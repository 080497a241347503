/**
 * The protocol that the server's caches follow. A call looks its key up (one critical section), fetches on a miss
 * (outside any), and stores what it fetched (another critical section), while other calls, database writes and
 * invalidations happen in between.
 */
module TtlCache {
  import opened Options

  datatype Entry<V> = Entry(value: V, expiry: int)

  type Cache<K, V> = map<K, Entry<V>>

  // ---------- the critical sections ----------

  function Lookup<K, V>(cache: Cache<K, V>, key: K, now: int): Option<V> {
    if key in cache && now < cache[key].expiry then Some(cache[key].value) else None
  }

  function Stored<K, V>(cache: Cache<K, V>, key: K, value: V, expiry: int): Cache<K, V> {
    cache[key := Entry(value, expiry)]
  }

  function Invalidated<K, V>(cache: Cache<K, V>, key: K): Cache<K, V> {
    cache - {key}
  }

  // ---------- the interleaved system ----------

  /** What a call looks up, what it fetches from the database on a miss, and how long an entry lives. */
  datatype Service<!D, !Q, K, V> = Service(key: Q -> K, fetch: (D, Q) -> V, ttl: nat)

  datatype Phase<Q, V> = Missed(request: Q) | Fetched(request: Q, value: V)

  datatype State<D, Q, K, V> = State(now: int, db: D, cache: Cache<K, V>, calls: map<nat, Phase<Q, V>>)

  datatype Action<D, Q, K> =
    | Tick(elapsed: nat)
    | Write(db: D)
    | Invalidate(key: K)
    | InvalidateAll
    | Check(call: nat, request: Q)
    | Read(call: nat)
    | Store(call: nat)

  predicate Enabled<D, Q, K, V>(s: State<D, Q, K, V>, a: Action<D, Q, K>) {
    match a
    case Check(t, _) => t !in s.calls
    case Read(t) => t in s.calls && s.calls[t].Missed?
    case Store(t) => t in s.calls && s.calls[t].Fetched?
    case _ => true
  }

  function Apply<D, Q, K, V>(sv: Service<D, Q, K, V>, s: State<D, Q, K, V>, a: Action<D, Q, K>): State<D, Q, K, V>
    requires Enabled(s, a)
  {
    match a
    case Tick(d) => s.(now := s.now + d)
    case Write(db) => s.(db := db)
    case Invalidate(k) => s.(cache := Invalidated(s.cache, k))
    case InvalidateAll => s.(cache := map[])
    case Check(t, q) =>
      if Lookup(s.cache, sv.key(q), s.now).Some? then s else s.(calls := s.calls[t := Missed(q)])
    case Read(t) =>
      var q := s.calls[t].request;
      s.(calls := s.calls[t := Fetched(q, sv.fetch(s.db, q))])
    case Store(t) =>
      var Fetched(q, v) := s.calls[t];
      s.(cache := Stored(s.cache, sv.key(q), v, s.now + sv.ttl), calls := s.calls - {t})
  }

  /** The states of an execution and the actions between them. */
  datatype Run<D, Q, K, V> = Run(states: seq<State<D, Q, K, V>>, actions: seq<Action<D, Q, K>>)

  ghost predicate Valid<D, Q, K, V>(sv: Service<D, Q, K, V>, r: Run<D, Q, K, V>) {
    && |r.states| == |r.actions| + 1
    && r.states[0].cache == map[] && r.states[0].calls == map[]
    && forall n :: 0 <= n < |r.actions| ==>
         Enabled(r.states[n], r.actions[n]) && r.states[n + 1] == Apply(sv, r.states[n], r.actions[n])
  }

  predicate ByCall<D, Q, K>(a: Action<D, Q, K>, t: nat) {
    (a.Check? || a.Read? || a.Store?) && a.call == t
  }

  /** The call `t` reads the database for `q` at step `i` and does nothing else before step `j`. */
  ghost predicate FetchedAt<D, Q, K, V>(r: Run<D, Q, K, V>, t: nat, q: Q, i: nat, j: nat)
    requires |r.states| == |r.actions| + 1
  {
    && i < j <= |r.actions|
    && r.actions[i] == Read(t) && t in r.states[i].calls && r.states[i].calls[t] == Missed(q)
    && forall m :: i < m < j ==> !ByCall(r.actions[m], t)
  }

  /** The call `t` reads the database for `q` at step `i` and stores what it read at step `j`. */
  ghost predicate FetchWindow<D, Q, K, V>(r: Run<D, Q, K, V>, t: nat, q: Q, i: nat, j: nat)
    requires |r.states| == |r.actions| + 1
  {
    j < |r.actions| && FetchedAt(r, t, q, i, j) && r.actions[j] == Store(t)
  }

  /** Step `m` drops or replaces the entry of a key. */
  predicate Touches<D, Q, K, V>(sv: Service<D, Q, K, V>, s: State<D, Q, K, V>, a: Action<D, Q, K>, k: K) {
    || a == Invalidate(k)
    || a.InvalidateAll?
    || (a.Store? && a.call in s.calls && sv.key(s.calls[a.call].request) == k)
  }

  /** The last thing that happened to a key before step `n` is that window's store. */
  ghost predicate LastStored<D, Q, K, V>(sv: Service<D, Q, K, V>, r: Run<D, Q, K, V>, n: nat, k: K,
                                         t: nat, q: Q, i: nat, j: nat)
    requires |r.states| == |r.actions| + 1
  {
    && j < n <= |r.actions|
    && FetchWindow(r, t, q, i, j) && sv.key(q) == k
    && forall m :: j < m < n ==> !Touches(sv, r.states[m], r.actions[m], k)
  }

  // ---------- the entry of a key is the last stored fetch ----------

  lemma {:induction false} FetchedOrigin<D, Q, K, V>(sv: Service<D, Q, K, V>, r: Run<D, Q, K, V>, n: nat, t: nat)
    returns (i: nat)
    requires Valid(sv, r) && n <= |r.actions|
    requires t in r.states[n].calls && r.states[n].calls[t].Fetched?
    ensures FetchedAt(r, t, r.states[n].calls[t].request, i, n)
    ensures r.states[n].calls[t].value == sv.fetch(r.states[i].db, r.states[n].calls[t].request)
    decreases n
  {
    assert n > 0;
    var a := r.actions[n - 1];
    assert r.states[n] == Apply(sv, r.states[n - 1], a);
    if a == Read(t) {
      i := n - 1;
    } else {
      assert !ByCall(a, t) && r.states[n - 1].calls[t] == r.states[n].calls[t];
      i := FetchedOrigin(sv, r, n - 1, t);
    }
  }

  lemma {:induction false} FetchPersists<D, Q, K, V>(sv: Service<D, Q, K, V>, r: Run<D, Q, K, V>, t: nat, q: Q,
                                                     i: nat, n: nat)
    requires Valid(sv, r) && FetchedAt(r, t, q, i, n)
    ensures t in r.states[n].calls && r.states[n].calls[t] == Fetched(q, sv.fetch(r.states[i].db, q))
    decreases n
  {
    var a := r.actions[n - 1];
    assert r.states[n] == Apply(sv, r.states[n - 1], a);
    if i == n - 1 {
    } else {
      FetchPersists(sv, r, t, q, i, n - 1);
      assert !ByCall(a, t);
    }
  }

  lemma UntouchedEntry<D, Q, K, V>(sv: Service<D, Q, K, V>, s: State<D, Q, K, V>, a: Action<D, Q, K>, k: K)
    requires Enabled(s, a) && !Touches(sv, s, a, k)
    ensures k in Apply(sv, s, a).cache <==> k in s.cache
    ensures k in s.cache ==> Apply(sv, s, a).cache[k] == s.cache[k]
  {
  }

  lemma {:induction false} EntryOrigin<D, Q, K, V>(sv: Service<D, Q, K, V>, r: Run<D, Q, K, V>, n: nat, k: K)
    returns (t: nat, q: Q, i: nat, j: nat)
    requires Valid(sv, r) && n <= |r.actions| && k in r.states[n].cache
    ensures LastStored(sv, r, n, k, t, q, i, j)
    ensures r.states[n].cache[k] == Entry(sv.fetch(r.states[i].db, q), r.states[j].now + sv.ttl)
    decreases n
  {
    assert n > 0;
    var s, a := r.states[n - 1], r.actions[n - 1];
    assert r.states[n] == Apply(sv, s, a);
    if Touches(sv, s, a, k) {
      assert a.Store?;
      t, j := a.call, n - 1;
      q := s.calls[t].request;
      i := FetchedOrigin(sv, r, j, t);
    } else {
      UntouchedEntry(sv, s, a, k);
      t, q, i, j := EntryOrigin(sv, r, n - 1, k);
    }
  }

  lemma {:induction false} LastStoredIsEntry<D, Q, K, V>(sv: Service<D, Q, K, V>, r: Run<D, Q, K, V>, n: nat, k: K,
                                                         t: nat, q: Q, i: nat, j: nat)
    requires Valid(sv, r) && LastStored(sv, r, n, k, t, q, i, j)
    ensures k in r.states[n].cache
    ensures r.states[n].cache[k] == Entry(sv.fetch(r.states[i].db, q), r.states[j].now + sv.ttl)
    decreases n
  {
    var s, a := r.states[n - 1], r.actions[n - 1];
    assert r.states[n] == Apply(sv, s, a);
    if j == n - 1 {
      FetchPersists(sv, r, t, q, i, j);
    } else {
      assert !Touches(sv, s, a, k);
      UntouchedEntry(sv, s, a, k);
      LastStoredIsEntry(sv, r, n - 1, k, t, q, i, j);
    }
  }

  /**
   * A lookup hits with a value exactly when the last thing that happened to the key was the store of a fetch that
   * read this value, and that store is younger than the time to live.
   */
  lemma HitIff<D(!new), Q(!new), K, V>(sv: Service<D, Q, K, V>, r: Run<D, Q, K, V>, n: nat, k: K, v: V)
    requires Valid(sv, r) && n <= |r.actions|
    ensures Lookup(r.states[n].cache, k, r.states[n].now) == Some(v)
            <==> exists t: nat, q: Q, i: nat, j: nat ::
                   && LastStored(sv, r, n, k, t, q, i, j)
                   && v == sv.fetch(r.states[i].db, q)
                   && r.states[n].now < r.states[j].now + sv.ttl
  {
    if Lookup(r.states[n].cache, k, r.states[n].now) == Some(v) {
      var t, q, i, j := EntryOrigin(sv, r, n, k);
    }
    if t: nat, q: Q, i: nat, j: nat :|
      && LastStored(sv, r, n, k, t, q, i, j)
      && v == sv.fetch(r.states[i].db, q)
      && r.states[n].now < r.states[j].now + sv.ttl
    {
      LastStoredIsEntry(sv, r, n, k, t, q, i, j);
    }
  }

  // ---------- what a call returns ----------

  /** At step `n` a call for `q` returns `v`, from the cache or from its own fetch. */
  ghost predicate Returns<D, Q, K, V>(sv: Service<D, Q, K, V>, r: Run<D, Q, K, V>, n: nat, q: Q, v: V)
    requires |r.states| == |r.actions| + 1
  {
    && n < |r.actions|
    && var s, a := r.states[n], r.actions[n];
       || (a.Check? && a.request == q && Lookup(s.cache, sv.key(q), s.now) == Some(v))
       || (a.Store? && a.call in s.calls && s.calls[a.call] == Fetched(q, v))
  }

  /** The value was read in a window that stored it no longer than the time to live ago. */
  ghost predicate FreshFrom<D, Q, K, V>(sv: Service<D, Q, K, V>, r: Run<D, Q, K, V>, n: nat, q: Q, v: V,
                                        t: nat, q': Q, i: nat, j: nat)
    requires |r.states| == |r.actions| + 1
  {
    && FetchWindow(r, t, q', i, j) && j <= n < |r.actions|
    && sv.key(q') == sv.key(q)
    && v == sv.fetch(r.states[i].db, q')
    && (j == n || r.states[n].now < r.states[j].now + sv.ttl)
    && forall m :: j < m < n ==> !Touches(sv, r.states[m], r.actions[m], sv.key(q))
  }

  lemma ReturnOrigin<D, Q, K, V>(sv: Service<D, Q, K, V>, r: Run<D, Q, K, V>, n: nat, q: Q, v: V)
    returns (t: nat, q': Q, i: nat, j: nat)
    requires Valid(sv, r) && Returns(sv, r, n, q, v)
    ensures FreshFrom(sv, r, n, q, v, t, q', i, j)
  {
    var a := r.actions[n];
    if a.Store? {
      t, q', j := a.call, q, n;
      i := FetchedOrigin(sv, r, n, t);
    } else {
      t, q', i, j := EntryOrigin(sv, r, n, sv.key(q));
    }
  }

  lemma {:induction false} ClockIsMonotone<D, Q, K, V>(sv: Service<D, Q, K, V>, r: Run<D, Q, K, V>, m: nat, n: nat)
    requires Valid(sv, r) && m <= n <= |r.actions|
    ensures r.states[m].now <= r.states[n].now
    decreases n
  {
    if m == n {
    } else {
      ClockIsMonotone(sv, r, m, n - 1);
      assert r.states[n] == Apply(sv, r.states[n - 1], r.actions[n - 1]);
    }
  }

  /** No call of the run takes longer than `delay` from reading the database to storing what it read. */
  ghost predicate StoresWithin<D(!new), Q(!new), K, V>(r: Run<D, Q, K, V>, delay: int)
    requires |r.states| == |r.actions| + 1
  {
    forall t: nat, q: Q, i: nat, j: nat :: FetchWindow(r, t, q, i, j) ==> r.states[j].now - r.states[i].now <= delay
  }

  /** Bounded staleness: what a call returns is what the database said at an instant at most `ttl + delay` ago. */
  lemma BoundedStaleness<D(!new), Q(!new), K, V>(sv: Service<D, Q, K, V>, r: Run<D, Q, K, V>, n: nat, q: Q, v: V,
                           delay: int)
    requires Valid(sv, r) && Returns(sv, r, n, q, v) && StoresWithin(r, delay) && sv.ttl > 0
    ensures exists i: nat, q': Q ::
      && i < n && sv.key(q') == sv.key(q) && v == sv.fetch(r.states[i].db, q')
      && r.states[n].now - r.states[i].now < sv.ttl + delay
  {
    var t, q', i, j := ReturnOrigin(sv, r, n, q, v);
    assert r.states[j].now - r.states[i].now <= delay;
    assert i < n && sv.key(q') == sv.key(q);
  }

  // ---------- what an invalidation promises ----------

  /** No fetch of the key that read before step `x` is stored after it. */
  ghost predicate NoStaleStore<D(!new), Q(!new), K, V(!new)>(sv: Service<D, Q, K, V>, r: Run<D, Q, K, V>, x: nat, k: K)
    requires |r.states| == |r.actions| + 1
  {
    forall t: nat, q: Q, i: nat, j: nat :: FetchWindow(r, t, q, i, j) && sv.key(q) == k && x < j ==> x < i
  }

  /** After an invalidation that no older fetch outlives, every call returns what the database said since. */
  lemma FreshAfterInvalidation<D(!new), Q(!new), K, V(!new)>(sv: Service<D, Q, K, V>, r: Run<D, Q, K, V>, x: nat,
                                 n: nat, q: Q, v: V)
    requires Valid(sv, r) && x < n && Returns(sv, r, n, q, v)
    requires r.actions[x] == Invalidate(sv.key(q)) || r.actions[x] == InvalidateAll
    requires NoStaleStore(sv, r, x, sv.key(q))
    ensures exists i: nat, q': Q :: x < i < n && sv.key(q') == sv.key(q) && v == sv.fetch(r.states[i].db, q')
  {
    var t, q', i, j := ReturnOrigin(sv, r, n, q, v);
    assert Touches(sv, r.states[x], r.actions[x], sv.key(q));
    assert j > x;
    assert x < i < n && sv.key(q') == sv.key(q);
  }

  /** A call has read the database for the key and has not stored what it read yet. */
  predicate InFlight<D, Q, K, V>(sv: Service<D, Q, K, V>, s: State<D, Q, K, V>, k: K, t: nat) {
    t in s.calls && s.calls[t].Fetched? && sv.key(s.calls[t].request) == k
  }

  /** A fetch that stores after step `x` what it read before is in flight at `x`. */
  lemma NoneInFlight<D(!new), Q(!new), K, V(!new)>(sv: Service<D, Q, K, V>, r: Run<D, Q, K, V>, x: nat, k: K)
    requires Valid(sv, r) && x < |r.actions| && (r.actions[x].Invalidate? || r.actions[x].InvalidateAll?)
    requires forall t :: !InFlight(sv, r.states[x], k, t)
    ensures NoStaleStore(sv, r, x, k)
  {
    forall t: nat, q: Q, i: nat, j: nat | FetchWindow(r, t, q, i, j) && sv.key(q) == k && x < j
      ensures x < i
    {
      if i < x {
        FetchPersists(sv, r, t, q, i, x);
        assert InFlight(sv, r.states[x], k, t);
      }
    }
  }

  /** The database says this value for the key. */
  ghost predicate Says<D, Q(!new), K, V>(sv: Service<D, Q, K, V>, db: D, k: K, v: V) {
    exists q :: sv.key(q) == k && sv.fetch(db, q) == v
  }

  /** A call for `q` that begins at step `c` returns `v` at step `n`. */
  ghost predicate Answers<D, Q, K, V>(sv: Service<D, Q, K, V>, r: Run<D, Q, K, V>, c: nat, n: nat, q: Q, v: V)
    requires |r.states| == |r.actions| + 1
  {
    && Returns(sv, r, n, q, v) && c <= n
    && r.actions[c].Check? && ByCall(r.actions[c], r.actions[n].call)
    && forall m :: c < m <= n ==> !(r.actions[m].Check? && ByCall(r.actions[m], r.actions[n].call))
  }

  ghost predicate Continues<D, Q, K, V>(sv: Service<D, Q, K, V>, r: Run<D, Q, K, V>, longer: Run<D, Q, K, V>) {
    Valid(sv, longer) && r.actions <= longer.actions && r.states <= longer.states
  }

  /**
   * In this continuation, a call that begins after the run's end and returns `v` saw the database as of then or
   * later.
   */
  ghost predicate SeesSince<D, Q(!new), K, V>(sv: Service<D, Q, K, V>, r: Run<D, Q, K, V>, longer: Run<D, Q, K, V>,
                                 n: nat, k: K, v: V)
  {
    exists i :: |r.actions| <= i <= n < |longer.states| && Says(sv, longer.states[i].db, k, v)
  }

  /**
   * In every continuation, every call for the key that begins after the run's end saw the database as of then
   * or later.
   */
  ghost predicate PromiseKept<D(!new), Q(!new), K(!new), V(!new)>(sv: Service<D, Q, K, V>, r: Run<D, Q, K, V>, k: K) {
    forall longer, c: nat, n: nat, q, v ::
      Continues(sv, r, longer) && |r.actions| <= c && Answers(sv, longer, c, n, q, v) && sv.key(q) == k
      ==> SeesSince(sv, r, longer, n, k, v)
  }

  /** Every fetch of the key in flight holds what the database says now. */
  ghost predicate NoStaleFetch<D, Q(!new), K, V>(sv: Service<D, Q, K, V>, s: State<D, Q, K, V>, k: K) {
    forall t :: InFlight(sv, s, k, t) ==> Says(sv, s.db, k, s.calls[t].value)
  }

  /** A lookup of the key finds nothing, or what the database says now. */
  ghost predicate NoStaleEntry<D, Q(!new), K, V>(sv: Service<D, Q, K, V>, s: State<D, Q, K, V>, k: K) {
    match Lookup(s.cache, k, s.now)
    case Some(v) => Says(sv, s.db, k, v)
    case None => true
  }

  /**
   * From any point of a run, every call that begins later sees the database as of then or later, in every continuation,
   * exactly when at that point neither the cache nor a fetch in flight holds a value that the database no longer says.
   */
  lemma PromiseIff<D(!new), Q(!new), K(!new), V(!new)>(sv: Service<D, Q, K, V>, r: Run<D, Q, K, V>, k: K)
    requires Valid(sv, r) && sv.ttl > 0
    ensures var s := r.states[|r.actions|];
            PromiseKept(sv, r, k) <==> NoStaleFetch(sv, s, k) && NoStaleEntry(sv, s, k)
  {
    var s := r.states[|r.actions|];
    if !NoStaleEntry(sv, s, k) {
      StaleEntryIsServed(sv, r, k);
    } else if !NoStaleFetch(sv, s, k) {
      var t :| InFlight(sv, s, k, t) && !Says(sv, s.db, k, s.calls[t].value);
      StaleFetchIsServed(sv, r, k, t);
    } else {
      forall longer, c: nat, n: nat, q, v
        | Continues(sv, r, longer) && |r.actions| <= c && Answers(sv, longer, c, n, q, v) && sv.key(q) == k
        ensures SeesSince(sv, r, longer, n, k, v)
      {
        LaterCallSees(sv, r, k, longer, c, n, q, v);
      }
    }
  }

  /**
   * An invalidation keeps its promise, in every continuation, exactly when at that moment no call is in flight with a
   * value of the key that the database no longer says. With none in flight at all it always does.
   */
  lemma PromiseKeptIff<D(!new), Q(!new), K(!new), V(!new)>(sv: Service<D, Q, K, V>, r: Run<D, Q, K, V>, k: K)
    requires Valid(sv, r) && r.actions != [] && sv.ttl > 0
    requires r.actions[|r.actions| - 1] == Invalidate(k) || r.actions[|r.actions| - 1] == InvalidateAll
    ensures PromiseKept(sv, r, k) <==> NoStaleFetch(sv, r.states[|r.actions|], k)
  {
    var end := |r.actions|;
    PromiseIff(sv, r, k);
    assert r.states[end] == Apply(sv, r.states[end - 1], r.actions[end - 1]);
    assert k !in r.states[end].cache;
  }

  lemma LaterCallSees<D(!new), Q(!new), K(!new), V(!new)>(sv: Service<D, Q, K, V>, r: Run<D, Q, K, V>, k: K,
                                                         longer: Run<D, Q, K, V>, c: nat, n: nat, q: Q, v: V)
    requires Valid(sv, r) && NoStaleFetch(sv, r.states[|r.actions|], k) && NoStaleEntry(sv, r.states[|r.actions|], k)
    requires Continues(sv, r, longer) && |r.actions| <= c && Answers(sv, longer, c, n, q, v) && sv.key(q) == k
    ensures SeesSince(sv, r, longer, n, k, v)
  {
    var end := |r.actions|;
    var t, q', i, j := ReturnOrigin(sv, longer, n, q, v);
    assert longer.states[end] == r.states[end];
    if i >= end {
      assert Says(sv, longer.states[i].db, k, v);
    } else if j >= end {
      FetchPersists(sv, longer, t, q', i, end);
      assert InFlight(sv, r.states[end], k, t);
    } else {
      StoredBefore(sv, longer, k, end, n, v, t, q', i, j);
    }
  }

  /** What a later lookup still finds of an earlier store is found now. */
  lemma StoredBefore<D(!new), Q(!new), K(!new), V(!new)>(
    sv: Service<D, Q, K, V>, r: Run<D, Q, K, V>, k: K, end: nat, n: nat, v: V, t: nat, q: Q, i: nat, j: nat)
    requires Valid(sv, r) && FetchWindow(r, t, q, i, j) && j < end <= n < |r.actions| && sv.key(q) == k
    requires v == sv.fetch(r.states[i].db, q) && r.states[n].now < r.states[j].now + sv.ttl
    requires forall m :: j < m < n ==> !Touches(sv, r.states[m], r.actions[m], k)
    ensures Lookup(r.states[end].cache, k, r.states[end].now) == Some(v)
  {
    assert LastStored(sv, r, end, k, t, q, i, j);
    LastStoredIsEntry(sv, r, end, k, t, q, i, j);
    ClockIsMonotone(sv, r, end, n);
  }

  /** A number that no call has. */
  lemma {:induction false} UnusedCall(used: set<nat>) returns (t: nat)
    ensures forall u :: u in used ==> u < t
    decreases used
  {
    if used == {} {
      t := 0;
    } else {
      var u :| u in used;
      var above := UnusedCall(used - {u});
      t := if u < above then above else u + 1;
      assert forall w :: w in used ==> w == u || w in used - {u};
    }
  }

  lemma StaleEntryIsServed<D(!new), Q(!new), K(!new), V(!new)>(sv: Service<D, Q, K, V>, r: Run<D, Q, K, V>, k: K)
    requires Valid(sv, r) && !NoStaleEntry(sv, r.states[|r.actions|], k)
    ensures !PromiseKept(sv, r, k)
  {
    var end, s := |r.actions|, r.states[|r.actions|];
    var v := Lookup(s.cache, k, s.now).value;
    var t0, q, i, j := EntryOrigin(sv, r, end, k);
    var t := UnusedCall(s.calls.Keys);
    var longer := Run(r.states + [s], r.actions + [Check(t, q)]);
    forall n | 0 <= n < |longer.actions|
      ensures Enabled(longer.states[n], longer.actions[n])
      ensures longer.states[n + 1] == Apply(sv, longer.states[n], longer.actions[n])
    {
      if n < end {
        assert longer.states[n] == r.states[n] && longer.states[n + 1] == r.states[n + 1];
        assert longer.actions[n] == r.actions[n];
      }
    }
    assert longer.states[end] == s && longer.actions[end] == Check(t, q);
    assert Answers(sv, longer, end, end, q, v);
    assert !SeesSince(sv, r, longer, end, k, v);
  }

  /** The continuation in which a fetch in flight is stored, and then a call for the same key begins. */
  function Served<D, Q, K, V>(sv: Service<D, Q, K, V>, r: Run<D, Q, K, V>, t: nat): Run<D, Q, K, V>
    requires r.states != [] && t in r.states[|r.states| - 1].calls && r.states[|r.states| - 1].calls[t].Fetched?
  {
    var s := r.states[|r.states| - 1];
    var stored := Apply(sv, s, Store(t));
    Run(r.states + [stored, stored], r.actions + [Store(t), Check(t, s.calls[t].request)])
  }

  lemma ServedIsValid<D, Q, K, V>(sv: Service<D, Q, K, V>, r: Run<D, Q, K, V>, t: nat)
    requires Valid(sv, r) && sv.ttl > 0
    requires t in r.states[|r.actions|].calls && r.states[|r.actions|].calls[t].Fetched?
    ensures Continues(sv, r, Served(sv, r, t))
  {
    var longer, end, s := Served(sv, r, t), |r.actions|, r.states[|r.actions|];
    forall n | 0 <= n < |longer.actions|
      ensures Enabled(longer.states[n], longer.actions[n])
      ensures longer.states[n + 1] == Apply(sv, longer.states[n], longer.actions[n])
    {
      if n < end {
        assert longer.states[n] == r.states[n] && longer.states[n + 1] == r.states[n + 1];
        assert longer.actions[n] == r.actions[n];
      } else if n == end {
        assert longer.states[n] == s && longer.actions[n] == Store(t);
      } else {
        assert longer.actions[n] == Check(t, s.calls[t].request);
        assert Lookup(longer.states[n].cache, sv.key(s.calls[t].request), s.now).Some?;
      }
    }
  }

  lemma StaleFetchIsServed<D(!new), Q(!new), K(!new), V(!new)>(sv: Service<D, Q, K, V>, r: Run<D, Q, K, V>, k: K,
                             t: nat)
    requires Valid(sv, r) && sv.ttl > 0
    requires InFlight(sv, r.states[|r.actions|], k, t)
    requires !Says(sv, r.states[|r.actions|].db, k, r.states[|r.actions|].calls[t].value)
    ensures !PromiseKept(sv, r, k)
  {
    var longer, end, s := Served(sv, r, t), |r.actions|, r.states[|r.actions|];
    var q, v := s.calls[t].request, s.calls[t].value;
    ServedIsValid(sv, r, t);
    assert longer.states[end] == s && longer.states[end + 1] == longer.states[end + 2] == Apply(sv, s, Store(t));
    assert longer.actions[end + 1] == Check(t, q);
    assert Answers(sv, longer, end + 1, end + 1, q, v);
    assert forall i :: end <= i <= end + 1 ==> longer.states[i].db == s.db;
    assert !SeesSince(sv, r, longer, end + 1, k, v);
  }
}
