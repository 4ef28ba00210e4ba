/**
 The Doppler resolver's TTL cache. A run of lookups is compared with fetching every time:
 what is returned is never older than the TTL, and fetches are at least a TTL apart.
 */
module SecretCache {
  import opened Prelude

  type Secrets = map<string, string>

  datatype Slot = Slot(fetched: real, secrets: Secrets)

  type Cache = map<string, Slot>

  /** One lookup: its token, the clock reading, and what a fetch would return (None: it raises). */
  datatype Lookup = Lookup(token: string, now: real, reply: Option<Secrets>)

  // ---------- One lookup ----------

  predicate Hit(cache: Cache, key: string, now: real, ttl: real) {
    key in cache && now - cache[key].fetched < ttl
  }

  function After(cache: Cache, key: string, x: Lookup, ttl: real): Cache {
    if Hit(cache, key, x.now, ttl) || x.reply.None? then cache
    else cache[key := Slot(x.now, x.reply.value)]
  }

  function Returned(cache: Cache, key: string, x: Lookup, ttl: real): Option<Secrets> {
    if Hit(cache, key, x.now, ttl) then Some(cache[key].secrets) else x.reply
  }

  /** The cache key is a digest of the token. */
  class DopplerResolver {
    const ttl: real
    const digest: string -> string
    var cache: Cache

    constructor (ttl: real, digest: string -> string)
      ensures this.ttl == ttl && this.digest == digest && cache == map[]
    {
      this.ttl, this.digest, cache := ttl, digest, map[];
    }

    method GetSecretsWithCache(x: Lookup) returns (secrets: Option<Secrets>)
      modifies this
      ensures secrets == Returned(old(cache), digest(x.token), x, ttl)
      ensures cache == After(old(cache), digest(x.token), x, ttl)
    {
      var key := digest(x.token);
      if key in cache {
        var slot := cache[key];
        if x.now - slot.fetched < ttl {
          return Some(slot.secrets);
        }
      }
      if x.reply.None? { return None; }
      cache := cache[key := Slot(x.now, x.reply.value)];
      return x.reply;
    }

    /** Secret lookup with the optional fallback to a local environment variable. */
    method Resolve(ref: Reference, env: map<string, string>, fallback: bool, x: Lookup) returns (value: Option<string>)
      requires ref.token == Some(x.token) || ref.token == None
      modifies this
      ensures value == Resolved(old(cache), digest(x.token), ref, env, fallback, x, ttl)
      ensures cache == if ref.parsed && ref.token.Some? then After(old(cache), digest(x.token), x, ttl) else old(cache)
    {
      if !ref.parsed { return None; }
      if ref.token.None? {
        if fallback && ref.name in env { return Some(env[ref.name]); }
        return None;
      }
      var secrets := GetSecretsWithCache(x);
      if secrets.Some? && ref.name in secrets.value {
        return Some(secrets.value[ref.name]);
      }
      if fallback && ref.name in env { return Some(env[ref.name]); }
      return None;
    }
  }

  /** A parsed reference: whether the URI was well formed, the token configured for it, and the secret's name. */
  datatype Reference = Reference(parsed: bool, token: Option<string>, name: string)

  function Resolved(cache: Cache, key: string, ref: Reference, env: map<string, string>, fallback: bool,
                    x: Lookup, ttl: real): Option<string> {
    if !ref.parsed then None
    else
      var secrets := if ref.token.Some? then Returned(cache, key, x, ttl) else None;
      if secrets.Some? && ref.name in secrets.value then Some(secrets.value[ref.name])
      else if fallback && ref.name in env then Some(env[ref.name])
      else None
  }

  /** The named entry of what Doppler returns wins, whatever the environment holds; without one, a local
      variable is used exactly if the fallback is on; a malformed reference resolves to nothing. */
  lemma ResolveColumns(cache: Cache, key: string, ref: Reference, env: map<string, string>, fallback: bool,
                       x: Lookup, ttl: real)
    ensures var value, answer := Resolved(cache, key, ref, env, fallback, x, ttl), Returned(cache, key, x, ttl);
            var found := ref.token.Some? && answer.Some? && ref.name in answer.value;
            && (!ref.parsed ==> value == None)
            && (ref.parsed && found ==> value == Some(answer.value[ref.name]))
            && (ref.parsed && !found && fallback && ref.name in env ==> value == Some(env[ref.name]))
            && (ref.parsed && !found && !(fallback && ref.name in env) ==> value == None)
  {
  }

  // ---------- Runs ----------

  function Run(digest: string -> string, ttl: real, run: seq<Lookup>): Cache {
    if run == [] then map[]
    else
      var last := run[|run| - 1];
      After(Run(digest, ttl, run[..|run| - 1]), digest(last.token), last, ttl)
  }

  /** What lookup `i` of the run returns. */
  function ReturnedAt(digest: string -> string, ttl: real, run: seq<Lookup>, i: nat): Option<Secrets>
    requires i < |run|
  {
    Returned(Run(digest, ttl, run[..i]), digest(run[i].token), run[i], ttl)
  }

  /** Lookup `i` goes to Doppler and succeeds. */
  predicate Fetches(digest: string -> string, ttl: real, run: seq<Lookup>, i: nat)
    requires i < |run|
  {
    !Hit(Run(digest, ttl, run[..i]), digest(run[i].token), run[i].now, ttl) && run[i].reply.Some?
  }

  predicate Monotone(run: seq<Lookup>) {
    forall i, j :: 0 <= i <= j < |run| ==> run[i].now <= run[j].now
  }

  ghost predicate NoCollision(digest: string -> string) {
    forall a, b :: digest(a) == digest(b) ==> a == b
  }

  lemma PrefixFetches(digest: string -> string, ttl: real, run: seq<Lookup>, n: nat, i: nat)
    requires i < n <= |run|
    ensures Fetches(digest, ttl, run[..n], i) == Fetches(digest, ttl, run, i)
  {
    assert run[..n][..i] == run[..i];
  }

  /** No successful fetch for the token from `from` on. */
  predicate NoFetchSince(digest: string -> string, ttl: real, run: seq<Lookup>, token: string, from: nat) {
    forall i :: from <= i < |run| && run[i].token == token ==> !Fetches(digest, ttl, run, i)
  }

  /** The slot of a token was written by its latest successful fetch. */
  predicate SlotFrom(digest: string -> string, ttl: real, run: seq<Lookup>, slot: Slot, token: string, j: nat) {
    && j < |run| && run[j].token == token && Fetches(digest, ttl, run, j)
    && slot == Slot(run[j].now, run[j].reply.value)
    && NoFetchSince(digest, ttl, run, token, j + 1)
  }

  lemma NoFetchStep(digest: string -> string, ttl: real, run: seq<Lookup>, token: string, from: nat)
    requires run != [] && NoFetchSince(digest, ttl, run[..|run| - 1], token, from)
    requires run[|run| - 1].token == token ==> !Fetches(digest, ttl, run, |run| - 1)
    ensures NoFetchSince(digest, ttl, run, token, from)
  {
    var n := |run| - 1;
    forall i | from <= i < |run| && run[i].token == token ensures !Fetches(digest, ttl, run, i) {
      if i < n {
        PrefixFetches(digest, ttl, run, n, i);
        assert run[..n][i] == run[i];
      }
    }
  }

  lemma {:induction false} SlotOrigin(digest: string -> string, ttl: real, run: seq<Lookup>, token: string)
    returns (j: nat)
    requires NoCollision(digest)
    ensures var cache := Run(digest, ttl, run);
            if digest(token) in cache then SlotFrom(digest, ttl, run, cache[digest(token)], token, j)
            else NoFetchSince(digest, ttl, run, token, 0)
  {
    j := 0;
    if run != [] {
      var n := |run| - 1;
      j := SlotOrigin(digest, ttl, run[..n], token);
      if run[n].token == token && Fetches(digest, ttl, run, n) {
        j := n;
      } else if digest(token) in Run(digest, ttl, run[..n]) {
        PrefixFetches(digest, ttl, run, n, j);
        NoFetchStep(digest, ttl, run, token, j + 1);
      } else {
        NoFetchStep(digest, ttl, run, token, 0);
      }
    }
  }

  /** Refinement with bounded staleness: whatever a lookup returns, a fetch for the same token returned
      it at that moment or less than one TTL earlier. */
  lemma ReturnsFreshSecrets(digest: string -> string, ttl: real, run: seq<Lookup>, i: nat) returns (j: int)
    requires NoCollision(digest) && Monotone(run) && i < |run|
    requires ReturnedAt(digest, ttl, run, i).Some?
    ensures 0 <= j <= i && run[j].token == run[i].token && run[j].reply == ReturnedAt(digest, ttl, run, i)
    ensures Fetches(digest, ttl, run, j)
    ensures j == i || 0.0 <= run[i].now - run[j].now < ttl
  {
    var before := run[..i];
    if Hit(Run(digest, ttl, before), digest(run[i].token), run[i].now, ttl) {
      j := SlotOrigin(digest, ttl, before, run[i].token);
      assert before[..j] == run[..j];
    } else {
      j := i;
    }
  }

  /** Two successful fetches for one token are at least one TTL apart. */
  lemma FetchesAreApart(digest: string -> string, ttl: real, run: seq<Lookup>, i: nat, k: nat)
    requires NoCollision(digest) && Monotone(run) && i < k < |run|
    requires run[i].token == run[k].token && Fetches(digest, ttl, run, i) && Fetches(digest, ttl, run, k)
    ensures run[k].now - run[i].now >= ttl
  {
    var before := run[..k];
    var j := SlotOrigin(digest, ttl, before, run[k].token);
    PrefixFetches(digest, ttl, run, k, i);
    assert before[i] == run[i];
    if digest(run[k].token) in Run(digest, ttl, before) {
      assert before[j] == run[j] && i <= j;
    }
  }

  function FetchCount(digest: string -> string, ttl: real, run: seq<Lookup>, token: string): nat {
    if run == [] then 0
    else
      var n := |run| - 1;
      FetchCount(digest, ttl, run[..n], token)
      + (if run[n].token == token && Fetches(digest, ttl, run, n) then 1 else 0)
  }

  /** `n` periods. */
  function Periods(n: nat, ttl: real): real {
    if n == 0 then 0.0 else Periods(n - 1, ttl) + ttl
  }

  lemma {:induction false} CountUpToLatest(digest: string -> string, ttl: real, run: seq<Lookup>, token: string)
    returns (last: nat)
    requires NoCollision(digest) && Monotone(run)
    ensures FetchCount(digest, ttl, run, token) > 0 ==>
              && last < |run| && run[last].token == token && Fetches(digest, ttl, run, last)
              && Periods(FetchCount(digest, ttl, run, token) - 1, ttl) <= run[last].now - run[0].now
  {
    last := 0;
    if run != [] {
      var n := |run| - 1;
      last := CountUpToLatest(digest, ttl, run[..n], token);
      if FetchCount(digest, ttl, run[..n], token) > 0 {
        PrefixFetches(digest, ttl, run, n, last);
      }
      if run[n].token == token && Fetches(digest, ttl, run, n) {
        if FetchCount(digest, ttl, run[..n], token) > 0 {
          FetchesAreApart(digest, ttl, run, last, n);
        }
        last := n;
      }
    }
  }

  /** A run of length T makes at most 1 + floor(T / ttl) successful fetches for one token. */
  lemma FetchRate(digest: string -> string, ttl: real, run: seq<Lookup>, token: string)
    requires NoCollision(digest) && Monotone(run) && run != [] && ttl > 0.0
    ensures FetchCount(digest, ttl, run, token) <= 1 + ((run[|run| - 1].now - run[0].now) / ttl).Floor
  {
    var last := CountUpToLatest(digest, ttl, run, token);
    var count, length := FetchCount(digest, ttl, run, token), run[|run| - 1].now - run[0].now;
    var whole := if count > 0 then count - 1 else 0;
    assert Periods(whole, ttl) <= length;
    PeriodsFit(whole, ttl, length);
  }

  lemma {:induction false} PeriodsFit(n: nat, ttl: real, length: real)
    requires ttl > 0.0 && Periods(n, ttl) <= length
    ensures n as real <= length / ttl
  {
    if n == 0 {
      assert length >= 0.0;
      Quotient(length, ttl);
    } else {
      PeriodsFit(n - 1, ttl, length - ttl);
      Quotient(length - ttl, ttl);
      assert (length - ttl) / ttl == length / ttl - 1.0;
    }
  }

  lemma Quotient(length: real, ttl: real)
    requires ttl > 0.0
    ensures length >= 0.0 ==> length / ttl >= 0.0
    ensures (length + ttl) / ttl == length / ttl + 1.0
  {
    var q, r := length / ttl + 1.0, (length + ttl) / ttl;
    assert (length / ttl) * ttl == length && r * ttl == length + ttl;
    assert q * ttl == length + ttl;
    if q < r { Scaled(r - q, ttl); }
    if r < q { Scaled(q - r, ttl); }
  }

  lemma Scaled(gap: real, ttl: real)
    requires gap > 0.0 && ttl > 0.0
    ensures gap * ttl > 0.0
  {
  }

  /** Without the fallback flag a local variable is never used: whatever Resolve returns is the named
      entry of a map that a fetch for the reference's token returned within the TTL. */
  lemma NoFallbackMeansDoppler(digest: string -> string, ttl: real, run: seq<Lookup>, i: nat, ref: Reference,
                               env: map<string, string>) returns (j: int)
    requires NoCollision(digest) && Monotone(run) && i < |run| && ref.token == Some(run[i].token)
    requires Resolved(Run(digest, ttl, run[..i]), digest(run[i].token), ref, env, false, run[i], ttl).Some?
    ensures 0 <= j <= i && run[j].token == run[i].token && run[j].reply.Some? && ref.name in run[j].reply.value
    ensures Resolved(Run(digest, ttl, run[..i]), digest(run[i].token), ref, env, false, run[i], ttl)
         == Some(run[j].reply.value[ref.name])
    ensures j == i || 0.0 <= run[i].now - run[j].now < ttl
  {
    j := ReturnsFreshSecrets(digest, ttl, run, i);
  }
}
