/** The cached server configuration, the ban list in it, and how fast a ban takes effect. */
module ConfigCache {
  import opened Options
  import opened TtlCache

  /** `expiresAt` is None for a permanent ban (the zero time). */
  datatype BannedPlayer = BannedPlayer(username: string, reason: string, expiresAt: Option<int>, createdAt: int)

  /** The ban list, and the rest of the document, which counters and administrators change. */
  datatype Config = Config(banned: seq<BannedPlayer>, other: int)

  const TTL := 30_000_000_000

  // ---------- bans ----------

  function Lower(c: char): char {
    if 'A' <= c <= 'Z' then c - 'A' + 'a' else c
  }

  function ToLower(s: string): string {
    seq(|s|, i requires 0 <= i < |s| => Lower(s[i]))
  }

  predicate EqualFold(a: string, b: string) {
    ToLower(a) == ToLower(b)
  }

  /** Names are equal if they agree letter by letter, whatever the case of the letters A to Z. */
  lemma EqualFoldIff(a: string, b: string)
    ensures EqualFold(a, b)
            <==> |a| == |b| && forall i :: 0 <= i < |a| ==>
                   || a[i] == b[i]
                   || ('A' <= a[i] <= 'Z' && b[i] as int == a[i] as int + 32)
                   || ('A' <= b[i] <= 'Z' && a[i] as int == b[i] as int + 32)
  {
    if |a| == |b| {
      forall i | 0 <= i < |a|
        ensures ToLower(a)[i] == ToLower(b)[i]
                <==> || a[i] == b[i]
                     || ('A' <= a[i] <= 'Z' && b[i] as int == a[i] as int + 32)
                     || ('A' <= b[i] <= 'Z' && a[i] as int == b[i] as int + 32)
      {
        SameLetterIff(a[i], b[i]);
      }
    } else {
      assert |ToLower(a)| == |a| && |ToLower(b)| == |b|;
    }
  }

  lemma SameLetterIff(a: char, b: char)
    ensures Lower(a) == Lower(b)
            <==> || a == b
                 || ('A' <= a <= 'Z' && b as int == a as int + 32)
                 || ('A' <= b <= 'Z' && a as int == b as int + 32)
  {
  }

  predicate IsActive(b: BannedPlayer, username: string, now: int) {
    EqualFold(b.username, username) && (b.expiresAt.None? || now < b.expiresAt.value)
  }

  predicate HasActiveBan(banned: seq<BannedPlayer>, username: string, now: int) {
    exists k :: 0 <= k < |banned| && IsActive(banned[k], username, now)
  }

  /** The first of the most recently created active bans. */
  predicate IsLatestActive(banned: seq<BannedPlayer>, username: string, now: int, k: nat) {
    && k < |banned| && IsActive(banned[k], username, now)
    && (forall i :: 0 <= i < |banned| && IsActive(banned[i], username, now) ==>
        banned[i].createdAt <= banned[k].createdAt)
    && (forall i :: 0 <= i < k && IsActive(banned[i], username, now) ==> banned[i].createdAt < banned[k].createdAt)
  }

  method IsUsernameBanned(config: Config, username: string, now: int) returns (banned: bool)
    ensures banned == HasActiveBan(config.banned, username, now)
  {
    for i := 0 to |config.banned|
      invariant forall k :: 0 <= k < i ==> !IsActive(config.banned[k], username, now)
    {
      var b := config.banned[i];
      if EqualFold(b.username, username) {
        if b.expiresAt.None? || now < b.expiresAt.value {
          return true;
        }
      }
    }
    return false;
  }

  /** A ban with a duration expires after it; without one it is permanent. */
  method BanPlayer(config: Config, username: string, reason: string, duration: Option<int>, now: int)
    returns (r: Option<Config>)
    ensures r.None? <==> username == ""
    ensures r.Some? ==>
      && r.value.other == config.other
      && |r.value.banned| == |config.banned| + 1 && config.banned <= r.value.banned
      && var b := r.value.banned[|config.banned|];
         && (IsActive(b, username, now) <==> duration.None? || duration.value > 0)
         && b.username == ToLower(username) && b.reason == reason && b.createdAt == now
         && b.expiresAt == (if duration.None? then None else Some(now + duration.value))
  {
    if username == "" {
      return None;
    }
    var expiresAt := if duration.None? then None else Some(now + duration.value);
    var newBan := BannedPlayer(ToLower(username), reason, expiresAt, now);
    assert ToLower(ToLower(username)) == ToLower(username);
    r := Some(config.(banned := config.banned + [newBan]));
  }

  method UnbanPlayer(config: Config, username: string, now: int) returns (r: Option<Config>)
    ensures r.None? <==> username == "" || !HasActiveBan(config.banned, username, now)
    ensures r.Some? ==> exists k :: IsLatestActive(config.banned, username, now, k)
                                    && r.value == config.(banned := Expired(config.banned, k, now))
  {
    if username == "" {
      return None;
    }
    var latest, latestTime := -1, 0;
    for i := 0 to |config.banned|
      invariant -1 <= latest < i
      invariant latest == -1 ==> forall k :: 0 <= k < i ==> !IsActive(config.banned[k], username, now)
      invariant latest >= 0 ==> IsLatestActive(config.banned[..i], username, now, latest)
      invariant latest >= 0 ==> latestTime == config.banned[latest].createdAt
    {
      var b := config.banned[i];
      assert config.banned[..i + 1] == config.banned[..i] + [b];
      if EqualFold(b.username, username) {
        if b.expiresAt.None? || now < b.expiresAt.value {
          if latest == -1 || b.createdAt > latestTime {
            latest, latestTime := i, b.createdAt;
          }
        }
      }
    }
    assert config.banned[..|config.banned|] == config.banned;
    if latest == -1 {
      return None;
    }
    var banned := config.banned;
    banned := banned[latest := banned[latest].(expiresAt := Some(now))];
    assert banned == Expired(config.banned, latest, now);
    r := Some(config.(banned := banned));
  }

  function Expired(banned: seq<BannedPlayer>, k: nat, now: int): seq<BannedPlayer>
    requires k < |banned|
  {
    banned[k := banned[k].(expiresAt := Some(now))]
  }

  // ---------- the cache ----------

  /** The one key of the configuration cache. */
  datatype Key = TheConfig

  /** GetCachedConfig's critical sections; the database read happens between Check and Store. */
  class ConfigCache {
    var configCache: Option<Config>
    var configCacheExpiry: int

    constructor ()
      ensures View() == map[]
    {
      configCache := None;
      configCacheExpiry := 0;
    }

    ghost function View(): Cache<Key, Config>
      reads this
    {
      if configCache.None? then map[] else map[TheConfig := Entry(configCache.value, configCacheExpiry)]
    }

    method Check(now: int) returns (hit: Option<Config>)
      ensures hit == Lookup(View(), TheConfig, now)
    {
      hit := if configCache.Some? && now < configCacheExpiry then configCache else None;
    }

    method Store(config: Config, now: int)
      modifies this
      ensures View() == Stored(old(View()), TheConfig, config, now + 30_000_000_000)
    {
      configCache := Some(config);
      configCacheExpiry := now + TTL;
    }

    method InvalidateConfigCache()
      modifies this
      ensures View() == Invalidated(old(View()), TheConfig)
    {
      configCache := None;
    }

    /** A whole call that nothing interrupts; `db` is what the database says at its read. */
    method GetCachedConfig(db: Config, checkedAt: int, storedAt: int) returns (config: Config)
      modifies this
      ensures match Lookup(old(View()), TheConfig, checkedAt)
              case Some(cached) => config == cached && View() == old(View())
              case None => config == db && View() == Stored(old(View()), TheConfig, db, storedAt + 30_000_000_000)
    {
      var hit := Check(checkedAt);
      if hit.Some? {
        return hit.value;
      }
      config := db;
      Store(config, storedAt);
    }
  }

  // ---------- how fast a ban takes effect ----------

  type ConfigState = State<Config, (), Key, Config>
  type ConfigRun = Run<Config, (), Key, Config>

  function ConfigService(): Service<Config, (), Key, Config> {
    Service((q: ()) => TheConfig, (db: Config, q: ()) => db, TTL)
  }

  /** A database write bans, unbans, or leaves the ban list alone. */
  ghost predicate BanWrite(c: Config, c': Config, now: int) {
    || c'.banned == c.banned
    || (exists b :: c' == c.(banned := c.banned + [b]))
    || (exists username, k :: IsLatestActive(c.banned, username, now, k)
                              && c' == c.(banned := Expired(c.banned, k, now)))
  }

  ghost predicate ValidConfigRun(r: ConfigRun) {
    && Valid(ConfigService(), r)
    && forall n :: 0 <= n < |r.actions| && r.actions[n].Write? ==>
         BanWrite(r.states[n].db, r.actions[n].db, r.states[n].now)
  }

  lemma StepKeepsBans(r: ConfigRun, n: nat, k: nat, username: string, later: int)
    requires ValidConfigRun(r) && n < |r.actions| && k < |r.states[n].db.banned|
    ensures k < |r.states[n + 1].db.banned|
    ensures r.states[n].now <= later && IsActive(r.states[n + 1].db.banned[k], username, later)
            ==> r.states[n].db.banned[k] == r.states[n + 1].db.banned[k]
  {
    var a := r.actions[n];
    assert r.states[n + 1] == Apply(ConfigService(), r.states[n], a);
    if a.Write? {
      assert BanWrite(r.states[n].db, a.db, r.states[n].now);
    }
  }

  /** A ban that is active at the end of a stretch of a run was the same ban all along. */
  lemma {:induction false} ActiveBanIsOld(r: ConfigRun, b: nat, n: nat, m: nat, k: nat, username: string, later: int)
    requires ValidConfigRun(r) && b <= n <= m <= |r.actions| && k < |r.states[b].db.banned|
    requires r.states[m].now <= later
    ensures k < |r.states[n].db.banned| && k < |r.states[m].db.banned|
    ensures IsActive(r.states[m].db.banned[k], username, later) ==> r.states[n].db.banned[k] == r.states[m].db.banned[k]
    decreases m
  {
    if b == m {
    } else {
      ActiveBanIsOld(r, b, if n < m then n else b, m - 1, k, username, later) by {
        ClockIsMonotone(ConfigService(), r, m - 1, m);
      }
      ClockIsMonotone(ConfigService(), r, m - 1, m);
      StepKeepsBans(r, m - 1, k, username, later);
    }
  }

  /**
   * A ban that was in the database at step `b` is enforced by every check that starts, at step `n`, 30 s plus the
   * slowest read-to-store delay later, and that is made while the ban is still active, at step `m`.
   */
  lemma BanIsEnforced(r: ConfigRun, b: nat, k: nat, n: nat, config: Config, m: nat, username: string, delay: int)
    requires ValidConfigRun(r) && StoresWithin(r, delay)
    requires b <= |r.actions| && k < |r.states[b].db.banned|
    requires Returns(ConfigService(), r, n, (), config) && n <= m <= |r.actions|
    requires b <= n && r.states[n].now >= r.states[b].now + 30_000_000_000 + delay
    requires k < |r.states[m].db.banned| && IsActive(r.states[m].db.banned[k], username, r.states[m].now)
    ensures HasActiveBan(config.banned, username, r.states[m].now)
  {
    BoundedStaleness(ConfigService(), r, n, (), config, delay);
    var i: nat :| i < n && config == r.states[i].db && r.states[n].now - r.states[i].now < TTL + delay;
    assert b <= i by {
      if i < b { ClockIsMonotone(ConfigService(), r, i, b); }
    }
    ActiveBanIsOld(r, b, i, m, k, username, r.states[m].now);
    assert IsActive(config.banned[k], username, r.states[m].now);
  }

  // ---------- an invalidation can be overtaken ----------

  /** A call in flight has read a configuration that is not the database's any more. */
  predicate HoldsOldConfig(s: ConfigState, t: nat) {
    t in s.calls && s.calls[t].Fetched? && s.calls[t].value != s.db
  }

  /**
   * Every call that begins after an invalidation returns a configuration the database had since, in every
   * continuation, if and only if no call in flight at the invalidation has read an older one.
   */
  lemma InvalidationWorksIff(r: ConfigRun)
    requires Valid(ConfigService(), r) && r.actions != [] && r.actions[|r.actions| - 1] == Invalidate(TheConfig)
    ensures PromiseKept(ConfigService(), r, TheConfig) <==> forall t :: !HoldsOldConfig(r.states[|r.actions|], t)
  {
    var s := r.states[|r.actions|];
    PromiseKeptIff(ConfigService(), r, TheConfig);
    forall t | InFlight(ConfigService(), s, TheConfig, t)
      ensures Says(ConfigService(), s.db, TheConfig, s.calls[t].value) <==> !HoldsOldConfig(s, t)
    {
      assert ConfigService().key(()) == TheConfig && ConfigService().fetch(s.db, ()) == s.db;
    }
    forall t | HoldsOldConfig(s, t)
      ensures InFlight(ConfigService(), s, TheConfig, t)
    {
    }
  }

  function OvertakenActions(ban: BannedPlayer): seq<Action<Config, (), Key>> {
    [Check(1, ()), Read(1), Write(Config([ban], 0)), Invalidate(TheConfig), Store(1), Check(2, ())]
  }

  function OvertakenStates(ban: BannedPlayer): seq<ConfigState> {
    var before, after := Config([], 0), Config([ban], 0);
    var fetched := map[1 := Fetched((), before)];
    var stored := map[TheConfig := Entry(before, TTL)];
    [State(0, before, map[], map[]), State(0, before, map[], map[1 := Missed(())]), State(0, before, map[], fetched),
     State(0, after, map[], fetched), State(0, after, map[], fetched), State(0, after, stored, map[]),
     State(0, after, stored, map[])]
  }

  lemma OvertakenStep(ban: BannedPlayer, n: nat)
    requires n < 6
    ensures Enabled(OvertakenStates(ban)[n], OvertakenActions(ban)[n])
    ensures OvertakenStates(ban)[n + 1] == Apply(ConfigService(), OvertakenStates(ban)[n], OvertakenActions(ban)[n])
  {
    var s := OvertakenStates(ban)[n];
    if n == 1 {
      assert s.calls[1 := Fetched((), s.db)] == map[1 := Fetched((), s.db)];
    } else if n == 4 {
      assert s.calls - {1} == map[];
    }
  }

  /**
   * Invalidating does not by itself force the next read to see the database: a fetch that read before a ban can be
   * stored after the invalidation that follows the ban, and the next call then returns a configuration without it.
   */
  lemma InvalidationCanBeOvertaken(ban: BannedPlayer)
    ensures var r := Run(OvertakenStates(ban), OvertakenActions(ban));
            && ValidConfigRun(r)
            && r.actions[3] == Invalidate(TheConfig) && !NoStaleStore(ConfigService(), r, 3, TheConfig)
            && (forall i :: 3 <= i <= 5 ==> r.states[i].db.banned == [ban])
            && Returns(ConfigService(), r, 5, (), Config([], 0))
  {
    var r := Run(OvertakenStates(ban), OvertakenActions(ban));
    forall n | 0 <= n < 6
      ensures Enabled(r.states[n], r.actions[n]) && r.states[n + 1] == Apply(ConfigService(), r.states[n], r.actions[n])
      ensures r.actions[n].Write? ==> BanWrite(r.states[n].db, r.actions[n].db, r.states[n].now)
    {
      OvertakenStep(ban, n);
      if n == 2 {
        assert r.actions[n].db == r.states[n].db.(banned := r.states[n].db.banned + [ban]);
      }
    }
    assert FetchWindow(r, 1, (), 1, 4);
  }
}
