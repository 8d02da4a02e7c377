/** `resolve_token`: the cache in front of the uncached resolver, run with nobody in between. */
module ResolveToken {
  import opened Base
  import opened Recency
  import TC = TokenCache
  import opened TokenResolution

  class Authenticator {
    const cache: TC.ResolvedTokenCache
    const store: TokenStore

    constructor (cache: TC.ResolvedTokenCache, store: TokenStore)
      ensures this.cache == cache && this.store == store
    {
      this.cache, this.store := cache, store;
    }

    /**
     A hit skips database and Argon2; a miss answers as the plain scan would, and a success
     is served from the cache until exactly one TTL after the snapshot. `None` is never cached.
     */
    method Resolve(p: string, ghost plain: seq<string>, lands: bool, asked: real, begun: real)
      returns (r: Option<TC.Principal>)
      requires cache.Valid() && store.Minted(plain)
      modifies cache, store`tokens
      ensures cache.Valid() && store.Minted(plain)
      ensures p == "" ==> r.None? && cache.State() == old(cache.State()) && store.State() == old(store.State())
      ensures p != "" && TC.Lookup(old(cache.State()), store.digest(p), asked).Some? ==>
                && r == TC.Lookup(old(cache.State()), store.digest(p), asked)
                && store.State() == old(store.State())
      ensures p != "" && TC.Lookup(old(cache.State()), store.digest(p), asked).None? ==>
                && r == VerifyEveryLiveRow(old(store.State()), store.verify, p)
                && RightAnswer(old(store.State()), plain, p, r)
                && store.State() == AfterResolve(old(store.State()), store.digest, store.verify, p, lands, begun)
                && (cache.maxEntries > 0 ==>
                      forall t :: TC.Lookup(cache.State(), store.digest(p), t)
                                  == if t < begun + cache.ttl then r else None)
    {
      if p == "" { return None; }
      var key := store.digest(p);
      r := cache.Get(key, asked);
      if r.Some? { return; }
      var generation, readAt := cache.Begin(begun);
      var cost;
      r, cost := store.ResolveUncached(p, plain, lands, begun);
      if r.Some? {
        ghost var before := cache.State();
        cache.Put(key, r.value, generation, Some(readAt), begun);
        if cache.maxEntries > 0 {
          PutIsVisible(before, key, r.value, readAt, cache.ttl, cache.maxEntries);
        }
      }
    }
  }

  /** A put whose snapshot is current goes in, and is not the key the bound drops. */
  lemma PutIsVisible(c: TC.Cache, k: Key, p: TC.Principal, started: real, ttl: real, max: nat)
    requires TC.Inv(c, max) && max > 0
    ensures var c' := TC.AfterPut(c, k, p, c.seqNo, started, ttl, max);
            k in c'.entries && c'.entries[k] == TC.Entry(started + ttl, p)
  {
    var order := Touch(c.order, k);
    assert Trim(order, max)[|Trim(order, max)| - 1] == k;
  }
}
