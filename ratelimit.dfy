/**
 * The fixed-window rate limiter of cattleguard, as values: the window record
 * kept in the store, the configuration, the request dimensions that go into
 * the cache key, and the specification of one check as a function from the
 * store's contents to the calls the check makes and the store it leaves.
 */
module RateLimit {

  datatype Option<T> = None | Some(value: T)

  /** The first part of every cache key. */
  const Namespace: string := "cattleguard"

  /** The string the key parts are joined with. */
  const Separator: string := "::"

  /** The response header set on a rejected request. */
  const RetryAfterHeader: string := "Retry-After"

  /** Milliseconds per second, the unit of Retry-After. */
  const MillisPerSecond: int := 1000

  /**
   * The limiter's configuration. `hasLookup` says whether `lookup` is a
   * function; the value it returns for a request is carried by the request.
   */
  datatype Config = Config(
    total: int,
    expire: int,
    perRoute: bool,
    perMethod: bool,
    hasLookup: bool)

  /**
   * What a check reads from the request: its path, its HTTP method (`verb`) and the
   * value the configured lookup returns for it. Each may be undefined.
   */
  datatype Request = Request(path: Option<string>, verb: Option<string>, lookup: Option<string>)

  /** The record persisted per key: capacity, hits left, and when the window ends. */
  datatype Window = Window(total: int, remaining: int, reset: int)

  /**
   * The calls one check makes, in order: on the store, on the response
   * (setting a header), on the rate-limited callback, and on the
   * continuation `next` (with or without an error).
   */
  datatype Event =
    | StoreGet(key: string)
    | StoreSet(key: string, window: Window)
    | StorePexpire(key: string, ms: int)
    | SetHeader(name: string, value: int)
    | CallOnRateLimited
    | CallNext(error: Option<string>)

  /** The decision taken on a persisted window. */
  datatype Verdict = Allow | Reject(retryAfter: int)

  /** The calls of one check and the store contents it leaves behind. */
  datatype Outcome = Outcome(calls: seq<Event>, entries: map<string, Window>)

  // ---------------------------------------------------------------------
  // Cache key

  /** How an array element is rendered by join: undefined becomes "". */
  function Text(v: Option<string>): string {
    if v.Some? then v.value else ""
  }

  /** Appends the rendering of `v` to `parts` when the dimension is on. */
  function Push(parts: seq<string>, on: bool, v: Option<string>): seq<string> {
    if on then parts + [Text(v)] else parts
  }

  /** Joins `parts` with `sep` between consecutive elements; "" for no parts. */
  function Join(parts: seq<string>, sep: string): (r: string)
    ensures |parts| > 0 ==> parts[0] <= r
    decreases |parts|
  {
    if |parts| == 0 then ""
    else if |parts| == 1 then parts[0]
    else Join(parts[..|parts| - 1], sep) + sep + parts[|parts| - 1]
  }

  /** The key parts: the namespace, then route, method and lookup when enabled. */
  function KeyParts(config: Config, req: Request): (parts: seq<string>)
    ensures |parts| == 1 + (if config.perRoute then 1 else 0)
                         + (if config.perMethod then 1 else 0)
                         + (if config.hasLookup then 1 else 0)
    ensures parts[0] == Namespace
    ensures config.perRoute ==> parts[1] == Text(req.path)
    ensures config.perMethod ==> parts[if config.perRoute then 2 else 1] == Text(req.verb)
    ensures config.hasLookup ==> parts[|parts| - 1] == Text(req.lookup)
  {
    var withRoute := Push([Namespace], config.perRoute, req.path);
    var withMethod := Push(withRoute, config.perMethod, req.verb);
    Push(withMethod, config.hasLookup, req.lookup)
  }

  /** The cache key of a request. */
  function Key(config: Config, req: Request): (key: string)
    ensures Namespace <= key
  {
    Join(KeyParts(config, req), Separator)
  }

  // ---------------------------------------------------------------------
  // Windows

  /** What the store holds at `key`, if anything. */
  function Lookup(entries: map<string, Window>, key: string): Option<Window> {
    if key in entries then Some(entries[key]) else None
  }

  /**
   * The window used when nothing is stored: full capacity, ending `expire`
   * from now. It never holds more hits than its capacity, and with a
   * non-negative `expire` it is live at `now`, so the rollover test that
   * follows leaves it as it is.
   */
  function Fresh(config: Config, now: int): (w: Window)
    ensures w.total == config.total && w.remaining == w.total
    ensures w.reset - now == config.expire
    ensures w.remaining <= w.total
    ensures config.expire >= 0 ==> !(now > w.reset)
  {
    Window(config.total, config.total, now + config.expire)
  }

  /**
   * The window the check works on: a fresh one when nothing is stored, the
   * stored one rolled over when `now` is past its reset, otherwise the
   * stored one as it is.
   */
  function Effective(config: Config, stored: Option<Window>, now: int): (w: Window)
    ensures config.expire >= 0 ==> now <= w.reset
    ensures stored.None? || now > stored.value.reset ==>
              w.remaining == config.total && w.reset == now + config.expire
    ensures stored.Some? ==> w.total == stored.value.total
    ensures stored.None? ==> w.total == config.total
    ensures stored.Some? && now <= stored.value.reset ==> w == stored.value
  {
    var limit := if stored.Some? then stored.value else Fresh(config, now);
    if now > limit.reset then limit.(reset := now + config.expire, remaining := config.total)
    else limit
  }

  /** The window the check writes back: the effective one less one hit. */
  function Updated(config: Config, stored: Option<Window>, now: int): (w: Window)
    ensures w.total == Effective(config, stored, now).total
    ensures w.reset == Effective(config, stored, now).reset
    ensures w.remaining == Effective(config, stored, now).remaining - 1
    ensures config.expire >= 0 ==> w.reset - now >= 0
  {
    var limit := Effective(config, stored, now);
    limit.(remaining := limit.remaining - 1)
  }

  /** Whole seconds until `ms` milliseconds have passed, rounded up. */
  function RetryAfter(ms: int): (seconds: int)
    ensures (seconds - 1) * MillisPerSecond < ms <= seconds * MillisPerSecond
  {
    -((-ms) / MillisPerSecond)
  }

  /** Allow while hits remain (zero included); otherwise reject with the seconds left. */
  function Decide(limit: Window, now: int): (v: Verdict)
    ensures v.Allow? <==> limit.remaining >= 0
    ensures v.Reject? ==> (v.retryAfter - 1) * MillisPerSecond < limit.reset - now <= v.retryAfter * MillisPerSecond
  {
    if limit.remaining >= 0 then Allow else Reject(RetryAfter(limit.reset - now))
  }

  /** The pexpire call, made only when the store offers it. */
  function Expiry(hasPexpire: bool, key: string, ms: int): seq<Event> {
    if hasPexpire then [StorePexpire(key, ms)] else []
  }

  /** What the check does with its verdict: call next, or set Retry-After and hand off. */
  function Respond(v: Verdict): seq<Event> {
    match v
    case Allow => [CallNext(None)]
    case Reject(seconds) => [SetHeader(RetryAfterHeader, seconds), CallOnRateLimited]
  }

  /**
   * One check on `key` at time `now`, against a store holding `entries`.
   * `getFault` and `setFault` are the errors the store's get and set report,
   * if any; `hasPexpire` says whether the store has a pexpire method.
   */
  function Step(config: Config, entries: map<string, Window>, hasPexpire: bool, key: string,
                now: int, getFault: Option<string>, setFault: Option<string>): (o: Outcome)
    ensures |o.calls| >= 2 && o.calls[0] == StoreGet(key)
    ensures o.calls[|o.calls| - 1].CallNext? || o.calls[|o.calls| - 1] == CallOnRateLimited
    ensures getFault.Some? || setFault.Some? ==> o.entries == entries
    ensures o.entries.Keys <= entries.Keys + {key}
    ensures forall k :: k in entries && k != key ==> k in o.entries && o.entries[k] == entries[k]
  {
    if getFault.Some? then
      Outcome([StoreGet(key), CallNext(getFault)], entries)
    else
      var limit := Updated(config, Lookup(entries, key), now);
      var attempt := [StoreGet(key), StoreSet(key, limit)];
      if setFault.Some? then
        Outcome(attempt + [CallNext(setFault)], entries)
      else
        Outcome(attempt + Expiry(hasPexpire, key, limit.reset - now) + Respond(Decide(limit, now)),
                entries[key := limit])
  }

  /** True when the check let the request through: `next` was called without an error. */
  predicate Allowed(calls: seq<Event>) {
    CallNext(None) in calls
  }

  /**
   * The outcomes of successive error-free checks on one key at the given
   * times, each on the store the previous one left.
   */
  function Replay(config: Config, entries: map<string, Window>, hasPexpire: bool, key: string,
                  times: seq<int>): (os: seq<Outcome>)
    ensures |os| == |times|
    decreases |times|
  {
    if times == [] then []
    else
      var o := Step(config, entries, hasPexpire, key, times[0], None, None);
      [o] + Replay(config, o.entries, hasPexpire, key, times[1..])
  }
}
