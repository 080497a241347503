/** Deriving a Kerberos key, and the cache in front of the derivation. Strings stand for byte strings. */
module KerberosKey {
  import opened Options
  import opened Bytes
  import opened Decimals
  import opened TtlCache

  const TTL := 300_000_000_000

  datatype Request = Request(pid: u32, pwd: string)

  /** An empty password means the one of the environment. */
  function Effective(pwd: string, env: string): string {
    if pwd == "" then env else pwd
  }

  function CacheKey(pid: u32, pwd: string): string {
    Decimal(pid) + ":" + pwd
  }

  function Iterated(hash: string -> string, n: nat, s: string): string {
    if n == 0 then s else hash(Iterated(hash, n - 1, s))
  }

  function Derived(hash: string -> string, pid: u32, pwd: string): string {
    Iterated(hash, 65000 + pid % 1024, pwd)
  }

  /** The chain of hashes behind a key, from the password on, or from the environment's if that is empty. */
  predicate IsChain(chain: seq<string>, hash: string -> string, pid: u32, pwd: string, env: string) {
    && |chain| == 65001 + pid % 1024
    && chain[0] == (if pwd == "" then env else pwd)
    && forall i :: 0 < i < |chain| ==> chain[i] == hash(chain[i - 1])
  }

  /** The key is the end of that chain. */
  lemma DerivedIsChainEnd(chain: seq<string>, hash: string -> string, pid: u32, pwd: string, env: string)
    requires IsChain(chain, hash, pid, pwd, env)
    ensures Derived(hash, pid, Effective(pwd, env)) == chain[|chain| - 1]
  {
    IteratedIsChain(chain, hash, |chain| - 1);
  }

  lemma {:induction false} IteratedIsChain(chain: seq<string>, hash: string -> string, n: nat)
    requires n < |chain| && forall i :: 0 < i < |chain| ==> chain[i] == hash(chain[i - 1])
    ensures Iterated(hash, n, chain[0]) == chain[n]
  {
    if n == 0 {
    } else {
      IteratedIsChain(chain, hash, n - 1);
    }
  }

  class KerberosKeyCache {
    var entries: map<string, Entry<string>>

    constructor ()
      ensures entries == map[]
    {
      entries := map[];
    }

    method Check(cacheKey: string, now: int) returns (hit: Option<string>)
      ensures hit == Lookup(entries, cacheKey, now)
    {
      hit := None;
      if cacheKey in entries {
        var entry := entries[cacheKey];
        if now < entry.expiry {
          hit := Some(entry.value);
        }
      }
    }

    method Store(cacheKey: string, key: string, now: int)
      modifies this
      ensures entries == Stored(old(entries), cacheKey, key, now + 300_000_000_000)
    {
      entries := entries[cacheKey := Entry(key, now + TTL)];
    }

    /** Every entry is the key of the user and password that its cache key spells. */
    ghost predicate Valid(hash: string -> string)
      reads this
    {
      forall pid: u32, pwd: string :: CacheKey(pid, pwd) in entries ==>
        entries[CacheKey(pid, pwd)].value == Derived(hash, pid, pwd)
    }

    /** A whole call that nothing interrupts: cached or not, the key is the derived one. */
    method DeriveKerberosKey(hash: string -> string, pid: u32, pwd: string, env: string, checkedAt: int, storedAt: int)
      returns (key: string)
      requires Valid(hash)
      modifies this
      ensures Valid(hash)
      ensures key == Derived(hash, pid, Effective(pwd, env))
    {
      var pwdToUse := pwd;
      if pwd == "" {
        pwdToUse := env;
      }
      var cacheKey := CacheKey(pid, pwdToUse);
      var hit := Check(cacheKey, checkedAt);
      if hit.Some? {
        return hit.value;
      }
      key := ComputeKey(hash, pid, pwdToUse);
      Store(cacheKey, key, storedAt);
      forall p: u32, w: string | CacheKey(p, w) in entries
        ensures entries[CacheKey(p, w)].value == Derived(hash, p, w)
      {
        if CacheKey(p, w) == cacheKey {
          CacheKeyIsInjective(p, w, pid, pwdToUse);
        }
      }
    }

    static method ComputeKey(hash: string -> string, pid: u32, pwd: string) returns (key: string)
      ensures key == Derived(hash, pid, pwd)
    {
      key := pwd;
      for i := 0 to 65000 + pid % 1024
        invariant key == Iterated(hash, i, pwd)
      {
        key := hash(key);
      }
    }
  }

  /** Different users or passwords have different cache keys: a numeral has no colon in it. */
  lemma CacheKeyIsInjective(pid: u32, pwd: string, pid': u32, pwd': string)
    requires CacheKey(pid, pwd) == CacheKey(pid', pwd')
    ensures pid == pid' && pwd == pwd'
  {
    var k := CacheKey(pid, pwd);
    var n, n' := |Decimal(pid)|, |Decimal(pid')|;
    assert k[n] == ':' && k[n'] == ':';
    assert forall i :: 0 <= i < n ==> k[i] == Decimal(pid)[i];
    assert forall i :: 0 <= i < n' ==> k[i] == Decimal(pid')[i];
    assert n == n';
    assert Decimal(pid) == k[..n] == Decimal(pid');
    assert pwd == k[n + 1..] == pwd';
    ParseOfDecimal(pid);
    ParseOfDecimal(pid');
  }

  function KeyService(hash: string -> string, env: string): Service<(), Request, string, string> {
    Service(
      (q: Request) => CacheKey(q.pid, Effective(q.pwd, env)),
      (db: (), q: Request) => Derived(hash, q.pid, Effective(q.pwd, env)),
      TTL)
  }

  /** The cache is invisible: in every interleaving of calls, every call returns the derived key of its own request. */
  lemma CacheIsTransparent(hash: string -> string, env: string, r: Run<(), Request, string, string>, n: nat,
                           q: Request, key: string)
    requires Valid(KeyService(hash, env), r) && Returns(KeyService(hash, env), r, n, q, key)
    ensures key == Derived(hash, q.pid, Effective(q.pwd, env))
  {
    var t, q', i, j := ReturnOrigin(KeyService(hash, env), r, n, q, key);
    CacheKeyIsInjective(q.pid, Effective(q.pwd, env), q'.pid, Effective(q'.pwd, env));
  }
}
