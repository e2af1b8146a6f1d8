# cattleguard: a fixed-window rate limiter, modelled in Dafny

cattleguard is a rate-limiting middleware. For each request it builds a cache
key from a fixed namespace (`cattleguard`) and, when enabled, the route, the
HTTP method and an application lookup value, joined by `::`. It reads that
key's window `{total, remaining, reset}` from a shared store. It starts a
fresh window when nothing is stored, and rolls the window over once the clock
is past `reset`. It then takes one hit from `remaining`, even below zero, and
writes the window back. If the store offers `pexpire`, it asks the store to
expire the key after `reset - now` milliseconds. Finally it either lets the
request through (`next()`) or sets `Retry-After` to the seconds left, rounded
up, and hands the request to `onRateLimited`. A store error on get or set is
passed to `next` unchanged.

The project has four modules:

- `RateLimit` (`ratelimit.dfy`): the values. These are the configuration, the
  request dimensions, the window, and the calls a check makes (`Event`: store
  get, set and pexpire, setting a header, the rate-limited callback, `next`
  with or without an error). It also holds the key (`KeyParts`, `Join`, `Key`),
  the window logic (`Effective`, `Updated`, `Decide`, `RetryAfter`), and
  `Step`: the whole of one check as a function from the store's contents to
  the calls made and the contents left. `Replay` runs a series of checks on
  one key.
- `RateLimitProperties` (`properties.dfy`): lemmas about `Step` and `Replay`.
  They cover the layout of the key, the two error paths, fresh windows,
  rollover, the single decrement, the frame (no other key is written), the
  pexpire argument, the allow/reject decision, a store invariant, and the
  quota of a fixed window.
- `Middleware` (`middleware.dfy`): the middleware as it runs. `Store` is a
  class whose `entries` map is the store's state; `Get` and `Set` take the
  fault the store reports as an input. `ComposeKey` pushes the parts and
  joins them. `Check` follows the source step by step: it composes the key,
  then `CheckKey` reads the window, updates it in place, and hands it to
  `Commit`, which writes it back and decides; each call is recorded. Its
  postcondition ties the returned calls and the new store contents to `Step`.
- `Scenarios` (`scenarios.dfy`): the cases of `test/index.js`. Each
  scenario method calls `Check` on a new `Store`, and its ensures state the
  exact values the test expects.

Inputs the source takes from the environment are parameters here. The clock
(`Date.now()`, sampled once per check) is `now`. Whether get or set fails is
`getFault` / `setFault`. Whether the store has `pexpire` is `Store.hasPexpire`.
The value `config.lookup(req)` returns is `Request.lookup`.

Points where the code's behaviour is easy to misread, and what the model does:

- Keys are not injective. Parts are joined with `::` and nothing escapes it,
  so different requests can share a key: a route that contains `::` can
  collide with a different route and method (`KeyCollision`). Agreeing on the
  enabled dimensions is enough for the same key
  (`KeyIgnoresDisabledDimensions`).
- `lookup`'s value is pushed as one element (index.js:54), so the model takes
  one string.
- `Array.prototype.join` renders an undefined element as the empty string. So
  with `perRoute` on and no path, the key is `cattleguard::`. The model keeps
  this: each dimension is an `Option<string>`, and `Text` maps `None` to `""`.
- After rollover, `remaining <= total` holds only when the stored `total`
  is at least `config.total`: the code keeps the stored `total` but refills
  `remaining` from `config.total` (index.js:71-74). The model proves the
  invariant in a form every check keeps: `Consistent` (every stored window
  has `total == config.total` and `remaining < config.total`) is preserved
  by every check (`StepKeepsConsistent`), and `Rollover` states the
  carried-over `total`.

## Model

| member | source | states |
|---|---|---|
| `RateLimit.Join` | index.js:57 | the joined key begins with its first part (the namespace) |
| `RateLimit.KeyParts` | index.js:45-55 | the key parts are the namespace, then the path if perRoute, the method if perMethod, the lookup value if lookup is a function, in that order, with one part per enabled dimension and nothing else |
| `RateLimit.RetryAfter` | index.js:91 | the Retry-After value is the ceiling of the milliseconds left divided by 1000: the least s with ms <= 1000 s |
| `RateLimit.Key` | index.js:45-57 | every key begins with "cattleguard" (its exact layout is `KeyLayout`) |
| `RateLimit.Fresh` | index.js:65-71 | a new window holds no more hits than its capacity (remaining <= total, both the configured total), and with expire >= 0 it is live at now, so the rollover test at index.js:71 never fires on it |
| `RateLimit.Effective` | index.js:64-74 | the window a check works on: when nothing is stored or now is past the stored reset, remaining is config.total and reset is now + expire; otherwise the stored window unchanged; total comes from the stored window when there is one; with expire >= 0 the window is live at now (now <= reset) |
| `RateLimit.Updated` | index.js:76 | the written window is the effective one with remaining lowered by exactly one and total and reset kept; with expire >= 0, reset - now >= 0 |
| `RateLimit.Decide` | index.js:87-94 | the verdict is allow exactly when remaining >= 0; a rejection carries the ceiling of (reset - now)/1000 |
| `RateLimit.Step` | index.js:59-95 | one check: the first call is the get of the key and the last is next (with or without an error) or onRateLimited; on a get or set error the store is unchanged; no key but the request's own is added or changed |
| `RateLimit.Replay` | index.js:59-95 | a series of error-free checks on one key yields one outcome per time; its own contract says only this, and `ReplaySteps`, `ChecksWithinWindow` and `FixedWindowQuota` state what the outcomes are |
| `RateLimitProperties.ReplaySteps` | index.js:59-95 | the first outcome of a replay is the check on the starting store, and each later one is the check at its own time on the store the previous one left |
| `RateLimitProperties.JoinSnoc` | index.js:57 | joining one more part gives the previous join followed by the separator and that part |
| `RateLimitProperties.JoinPush` | index.js:47-57 | pushing a part onto the array and joining equals the previous join followed by "::" and that part |
| `RateLimitProperties.KeyLayout` | index.js:45-57 | the key is exactly "cattleguard" + "::path" + "::method" + "::lookup", each segment present only when its dimension is enabled |
| `RateLimitProperties.KeyWithoutDimensions` | index.js:45-57 | with no dimension enabled the key is exactly "cattleguard" |
| `RateLimitProperties.KeyIgnoresDisabledDimensions` | index.js:47-55 | requests that agree on every enabled dimension get the same key |
| `RateLimitProperties.KeyCollision` | index.js:57 | two requests with different paths can share a key when a part contains "::" |
| `RateLimitProperties.GetErrorForwarded` | index.js:59-62 | a get error is passed to next unchanged; the only calls are the get and that next; the store is unchanged |
| `RateLimitProperties.SetErrorForwarded` | index.js:76-80 | a set error is passed to next unchanged after the attempted write; the store is unchanged; no pexpire and no onRateLimited call |
| `RateLimitProperties.FreshKey` | index.js:65-76 | on an unseen key the stored window becomes {total, total - 1, now + expire} |
| `RateLimitProperties.Rollover` | index.js:71-76 | when now > reset the stored window becomes {stored total, config.total - 1, now + expire} |
| `RateLimitProperties.SameWindow` | index.js:71-76 | when now <= reset (equality included) total and reset are kept and remaining drops by one |
| `RateLimitProperties.OnlyOwnKeyWritten` | index.js:76-80 | no other key is added, removed or changed; on any error nothing changes; on success the written remaining is the effective remaining minus exactly one |
| `RateLimitProperties.ExpireArgument` | index.js:64-85 | with expire >= 0 the pexpire argument reset - now is >= 0, and equals expire for a fresh or rolled-over window |
| `RateLimitProperties.PexpireAfterSet` | index.js:82-85 | after a successful set, pexpire is the next call, with the same key and reset - now, whatever the decision; without pexpire no such call happens |
| `RateLimitProperties.Decision` | index.js:87-94 | the request is allowed (next with no error) exactly when the written remaining >= 0; otherwise Retry-After is set to ceil((reset - now)/1000), onRateLimited is called after it, and next is never called |
| `RateLimitProperties.StepKeepsConsistent` | index.js:65-77 | if every stored window has the configured total and remaining below it, every check (failing or not) keeps it so |
| `RateLimitProperties.ResetNeverDecreases` | index.js:71-74 | with expire >= 0 a stored reset never moves back, and it moves only on rollover |
| `RateLimitProperties.ChargeWithinWindow` | index.js:71-94 | one check up to the stored reset writes the stored window less one hit and decides on it |
| `RateLimitProperties.ChecksWithinWindow` | index.js:59-94 | on a store that does not evict the key, the i-th of a series of checks up to the reset leaves remaining - 1 - i, is allowed exactly while that is >= 0, and otherwise sets Retry-After from the same reset |
| `RateLimitProperties.FixedWindowQuota` | index.js:64-94 | on a store that does not evict the key, when the first check finds no live window and the later ones come within expire of it, exactly the first total checks are allowed, and the i-th leaves total - 1 - i hits in a window ending expire after the first check |
| `Middleware.Store.Get` | index.js:59-62 | get returns the reported error, or the window stored at the key or nothing |
| `Middleware.Store.Set` | index.js:77-80 | set returns the reported error and writes the window only when there is none |
| `Middleware.ComposeKey` | index.js:45-57 | the key built by pushing the enabled parts and joining with "::" is the key of the request |
| `Middleware.Check` | index.js:44-97 | the calls made and the new store contents are those of one check as specified by Step, on the key of the request |
| `Middleware.CheckKey` | index.js:59-95 | on a given key, get, rollover, decrement, set, pexpire and the decision make exactly the calls and leave exactly the store contents of Step |
| `Middleware.Commit` | index.js:77-95 | the set callback: the write is recorded first; a set error goes to next and leaves the store as it was; otherwise the window is stored, pexpire is asked for if the store has it, and the decision on the written window follows |
| `Scenarios.MinimumScenario` | test/index.js:20-41 | total 1, expire 1000 at time 0: allowed, and "cattleguard" holds {1, 0, 1000} |
| `Scenarios.LimitScenario` | test/index.js:42-61 | total 1: the first check is allowed; the second sets Retry-After to 1 and calls onRateLimited instead of next |
| `Scenarios.PerRouteScenario` | test/index.js:62-84 | perRoute with path /test stores {1, 0, 1000} under "cattleguard::/test" |
| `Scenarios.PerMethodScenario` | test/index.js:85-107 | perMethod with GET stores {1, 0, 1000} under "cattleguard::GET" |
| `Scenarios.LookupScenario` | test/index.js:108-133 | a lookup returning "test" stores {1, 0, 1000} under "cattleguard::test" |
| `Scenarios.WithPexpireScenario` | test/index.js:134-154 | a store with pexpire gets pexpire("cattleguard", 1000), and the request is allowed |
| `Scenarios.AlreadyExpiredScenario` | test/index.js:155-178 | at time 1 a stored {1, 100, 0} is rolled over to {1, 0, 1001} |
| `Scenarios.GetErrorScenario` | test/index.js:179-191 | a get error "uh oh" reaches next as it is, and nothing else is called |
| `Scenarios.SetErrorScenario` | test/index.js:193-208 | a set error "uh oh" reaches next as it is, and the store stays empty |

## Left out

- Asynchronous callback chaining: the get, set and pexpire callbacks are modelled as sequential steps in the order the code chains them.
- `Date.now()`: the clock is the parameter `now`, sampled once per check, as index.js:64 does.
- `JSON.stringify` / `JSON.parse`: the store holds `Window` records directly, so no text format or serialisation round trip is modelled.
- Store implementations (node-cache, Redis clients): the store is a map, and get/set failures are inputs. What `pexpire` does to the store (evicting the key later) belongs to the store and is not modelled; the model records only the call and its argument. A check at `now == reset` asks for `pexpire(key, 0)`, and a store that honours it drops the window at once, so `ChecksWithinWindow` and `FixedWindowQuota` hold for a store that does not evict the key.
- Caller-supplied callbacks: `lookup` is represented by the value it returns; `onRateLimited` and `res.set` are represented by the calls recorded in the trace, not by what they do.
- JavaScript numbers: the model uses unbounded integers. Fractional, NaN or non-numeric `total`, `expire` or stored fields, and precision loss above 2^53, are not modelled. `Math.ceil` of a quotient strictly between -1 and 0 gives -0 in JavaScript, and the model gives 0 (the header text is "0" either way).
- JavaScript truthiness: a falsy error value (such as an empty string) counts as "no error" in the source. The model represents "no error" as `None` only.
- A stored value that is present but falsy, or one that fails to parse, is not modelled.
- Missing callbacks on a rejection: the source calls `res.set` (index.js:92) and `config.onRateLimited` (index.js:94) without checking that they exist, so a rejection with either missing throws a TypeError. The model assumes both are present: on a rejection it always records the header and the callback (`Respond`).
- Concurrency: two checks on the same key that race between get and set can both read the same `remaining`. The source does not guard against this, and the model runs checks one at a time.
- Key injectivity: not claimed, because parts containing `::` collide (`KeyCollision`).
- `Middleware.Store.Get`: when get fails, the model does not say what value comes back with the error, because the source ignores it.
