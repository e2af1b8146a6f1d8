/**
 * The repository's test cases as methods: each creates a new `Store`,
 * calls `Check` at the clock value the test fixes (time starts at 0), and
 * its ensures state the calls and stored windows the test expects.
 */
module Scenarios {
  import opened RateLimit
  import opened RateLimitProperties
  import opened Middleware

  /** The configuration most tests use: one hit per second, nothing per route, method or user. */
  function OnePerSecond(): Config {
    Config(1, 1000, false, false, false)
  }

  /** A request with no path, no method and no lookup value. */
  function EmptyRequest(): Request {
    Request(None, None, None)
  }

  /** The first check on an empty store is allowed and stores one full window less one hit. */
  method MinimumScenario() returns (calls: seq<Event>, stored: Option<Window>)
    ensures calls == [StoreGet("cattleguard"), StoreSet("cattleguard", Window(1, 0, 1000)), CallNext(None)]
    ensures stored == Some(Window(1, 0, 1000))
  {
    var store := new Store(false);
    KeyWithoutDimensions(OnePerSecond(), EmptyRequest());
    calls := Check(OnePerSecond(), store, EmptyRequest(), 0, None, None);
    stored := Lookup(store.entries, "cattleguard");
  }

  /** With a total of one, the second check in the window is rejected with Retry-After 1. */
  method LimitScenario() returns (first: seq<Event>, second: seq<Event>)
    ensures Allowed(first) && first[|first| - 1] == CallNext(None)
    ensures !Allowed(second)
    ensures second == [StoreGet("cattleguard"), StoreSet("cattleguard", Window(1, -1, 1000)),
                       SetHeader("Retry-After", 1), CallOnRateLimited]
  {
    var store := new Store(false);
    KeyWithoutDimensions(OnePerSecond(), EmptyRequest());
    first := Check(OnePerSecond(), store, EmptyRequest(), 0, None, None);
    second := Check(OnePerSecond(), store, EmptyRequest(), 0, None, None);
  }

  /** Per route, the window is stored under the namespace and the path. */
  method PerRouteScenario() returns (stored: Option<Window>)
    ensures stored == Some(Window(1, 0, 1000))
  {
    var store := new Store(false);
    var config := OnePerSecond().(perRoute := true);
    var req := EmptyRequest().(path := Some("/test"));
    KeyLayout(config, req);
    assert Key(config, req) == "cattleguard::/test";
    var calls := Check(config, store, req, 0, None, None);
    stored := Lookup(store.entries, "cattleguard::/test");
  }

  /** Per method, the window is stored under the namespace and the method. */
  method PerMethodScenario() returns (stored: Option<Window>)
    ensures stored == Some(Window(1, 0, 1000))
  {
    var store := new Store(false);
    var config := OnePerSecond().(perMethod := true);
    var req := EmptyRequest().(verb := Some("GET"));
    KeyLayout(config, req);
    assert Key(config, req) == "cattleguard::GET";
    var calls := Check(config, store, req, 0, None, None);
    stored := Lookup(store.entries, "cattleguard::GET");
  }

  /** With a lookup, the window is stored under the namespace and the lookup value. */
  method LookupScenario() returns (stored: Option<Window>)
    ensures stored == Some(Window(1, 0, 1000))
  {
    var store := new Store(false);
    var config := OnePerSecond().(hasLookup := true);
    var req := EmptyRequest().(lookup := Some("test"));
    KeyLayout(config, req);
    assert Key(config, req) == "cattleguard::test";
    var calls := Check(config, store, req, 0, None, None);
    stored := Lookup(store.entries, "cattleguard::test");
  }

  /** A store with pexpire is told to expire the key after the whole window, and the request passes. */
  method WithPexpireScenario() returns (calls: seq<Event>)
    ensures StorePexpire("cattleguard", 1000) in calls
    ensures calls[|calls| - 1] == CallNext(None)
  {
    var store := new Store(true);
    KeyWithoutDimensions(OnePerSecond(), EmptyRequest());
    calls := Check(OnePerSecond(), store, EmptyRequest(), 0, None, None);
    assert calls[2] == StorePexpire("cattleguard", 1000);
  }

  /** A stored window whose reset has passed is replaced by a new one starting now. */
  method AlreadyExpiredScenario() returns (stored: Option<Window>)
    ensures stored == Some(Window(1, 0, 1001))
  {
    var store := new Store(false);
    var seeded := store.Set("cattleguard", Window(1, 100, 0), None);
    KeyWithoutDimensions(OnePerSecond(), EmptyRequest());
    var calls := Check(OnePerSecond(), store, EmptyRequest(), 1, None, None);
    stored := Lookup(store.entries, "cattleguard");
  }

  /** A failing get reaches next unchanged, and nothing else happens. */
  method GetErrorScenario() returns (calls: seq<Event>)
    ensures calls == [StoreGet("cattleguard"), CallNext(Some("uh oh"))]
  {
    var store := new Store(false);
    KeyWithoutDimensions(OnePerSecond(), EmptyRequest());
    calls := Check(OnePerSecond(), store, EmptyRequest(), 0, Some("uh oh"), None);
  }

  /** A failing set reaches next unchanged, and the store stays empty. */
  method SetErrorScenario() returns (calls: seq<Event>, stored: Option<Window>)
    ensures calls == [StoreGet("cattleguard"), StoreSet("cattleguard", Window(1, 0, 1000)), CallNext(Some("uh oh"))]
    ensures stored == None
  {
    var store := new Store(false);
    KeyWithoutDimensions(OnePerSecond(), EmptyRequest());
    calls := Check(OnePerSecond(), store, EmptyRequest(), 0, None, Some("uh oh"));
    stored := Lookup(store.entries, "cattleguard");
  }
}
