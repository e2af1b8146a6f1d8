/**
 * The middleware as it runs: the key is built by pushing parts onto an
 * array and joining them, the window is read from the store, updated in
 * place and written back, and the calls the check makes are recorded in
 * the order it makes them.
 */
module Middleware {
  import opened RateLimit

  /**
   * The store the limiter shares across processes, seen through its get/set
   * contract: a map from keys to windows. Whether a get or set fails is
   * decided outside the core and passed in as a fault. `hasPexpire` says
   * whether the store offers a pexpire method; the expiry it performs is
   * the store's own business and is not modelled here.
   */
  class Store {
    var entries: map<string, Window>
    const hasPexpire: bool

    constructor (hasPexpire: bool)
      ensures entries == map[] && this.hasPexpire == hasPexpire
    {
      entries := map[];
      this.hasPexpire := hasPexpire;
    }

    /** Reads `key`: the fault if there is one, otherwise what is stored there, if anything. */
    method Get(key: string, fault: Option<string>) returns (err: Option<string>, limit: Option<Window>)
      ensures err == fault
      ensures fault.None? ==> (limit.Some? <==> key in entries)
      ensures fault.None? && limit.Some? ==> limit.value == entries[key]
    {
      err := fault;
      limit := if fault.None? then Lookup(entries, key) else None;
    }

    /** Writes `limit` at `key` unless the write fails; a failed write changes nothing. */
    method Set(key: string, limit: Window, fault: Option<string>) returns (err: Option<string>)
      modifies this`entries
      ensures err == fault
      ensures entries == if fault.None? then old(entries)[key := limit] else old(entries)
    {
      err := fault;
      if fault.None? {
        entries := entries[key := limit];
      }
    }
  }

  /** Builds the cache key: the namespace, then each enabled dimension, joined by "::". */
  method ComposeKey(config: Config, req: Request) returns (key: string)
    ensures key == Key(config, req)
  {
    var parts := [Namespace];
    if config.perRoute {
      parts := parts + [Text(req.path)];
    }
    if config.perMethod {
      parts := parts + [Text(req.verb)];
    }
    if config.hasLookup {
      parts := parts + [Text(req.lookup)];
    }
    key := Join(parts, Separator);
  }

  /**
   * One check of a request at time `now`. It returns the calls it made, in
   * order, on the store, the response, the rate-limited callback and the
   * continuation; the store is left as the specification of a check says.
   */
  method Check(config: Config, store: Store, req: Request, now: int,
               getFault: Option<string>, setFault: Option<string>) returns (calls: seq<Event>)
    modifies store
    ensures var o := Step(config, old(store.entries), store.hasPexpire, Key(config, req), now, getFault, setFault);
            calls == o.calls && store.entries == o.entries
  {
    var key := ComposeKey(config, req);
    calls := CheckKey(config, store, key, now, getFault, setFault);
  }

  /**
   * The part of a check that follows the key: read the window at `key`,
   * roll it over if its reset has passed, take one hit, write it back, ask
   * for expiry, and decide.
   */
  method CheckKey(config: Config, store: Store, key: string, now: int,
                  getFault: Option<string>, setFault: Option<string>) returns (calls: seq<Event>)
    modifies store
    ensures var o := Step(config, old(store.entries), store.hasPexpire, key, now, getFault, setFault);
            calls == o.calls && store.entries == o.entries
  {
    calls := [StoreGet(key)];
    var getErr, found := store.Get(key, getFault);
    if getErr.Some? {
      calls := calls + [CallNext(getErr)];
      return;
    }

    var limit := if found.Some? then found.value else Fresh(config, now);
    if now > limit.reset {
      limit := limit.(reset := now + config.expire, remaining := config.total);
    }
    limit := limit.(remaining := limit.remaining - 1);

    var rest := Commit(store, key, limit, now, setFault);
    calls := calls + rest;
    assert getFault.None?;
    assert limit == Updated(config, Lookup(old(store.entries), key), now);
  }

  /**
   * The part of a check that follows the decrement: write `limit` back at
   * `key` and, if the write succeeds, ask for expiry and decide on `limit`.
   */
  method Commit(store: Store, key: string, limit: Window, now: int, setFault: Option<string>)
    returns (calls: seq<Event>)
    modifies store
    ensures calls == [StoreSet(key, limit)]
                     + if setFault.Some? then [CallNext(setFault)]
                       else Expiry(store.hasPexpire, key, limit.reset - now) + Respond(Decide(limit, now))
    ensures store.entries == if setFault.None? then old(store.entries)[key := limit] else old(store.entries)
  {
    calls := [StoreSet(key, limit)];
    var setErr := store.Set(key, limit, setFault);
    if setErr.Some? {
      calls := calls + [CallNext(setErr)];
      return;
    }

    if store.hasPexpire {
      calls := calls + [StorePexpire(key, limit.reset - now)];
    }
    if limit.remaining >= 0 {
      calls := calls + [CallNext(None)];
      return;
    }
    var after := RetryAfter(limit.reset - now);
    calls := calls + [SetHeader(RetryAfterHeader, after), CallOnRateLimited];
  }
}
