/**
 * What one check and a sequence of checks guarantee: the layout of the
 * cache key, the error paths, window creation and rollover, the single
 * decrement, the pexpire argument, the allow/reject decision, the store
 * invariant and the quota of a fixed window.
 */
module RateLimitProperties {
  import opened RateLimit

  // ---------------------------------------------------------------------
  // Cache key

  /** The text a dimension adds to the key: the separator and its value, or nothing. */
  function Dimension(on: bool, v: Option<string>): string {
    if on then Separator + Text(v) else ""
  }

  /** Joining one more part appends the separator and that part. */
  lemma JoinSnoc(parts: seq<string>, sep: string, x: string)
    requires |parts| > 0
    ensures Join(parts + [x], sep) == Join(parts, sep) + (sep + x)
  {
    var longer := parts + [x];
    assert longer[..|longer| - 1] == parts;
    var joined := Join(parts, sep);
    assert joined + sep + x == joined + (sep + x);
  }

  /** Pushing a part and then joining appends the separator and that part. */
  lemma JoinPush(parts: seq<string>, on: bool, v: Option<string>)
    requires |parts| > 0
    ensures Join(Push(parts, on, v), Separator) == Join(parts, Separator) + Dimension(on, v)
  {
    if on {
      JoinSnoc(parts, Separator, Text(v));
    } else {
      assert Join(parts, Separator) + "" == Join(parts, Separator);
    }
  }

  /**
   * The key is the namespace followed, in this order, by "::" and the route,
   * "::" and the method, "::" and the lookup value, each only when enabled.
   */
  lemma KeyLayout(config: Config, req: Request)
    ensures Key(config, req) == Namespace
                                + Dimension(config.perRoute, req.path)
                                + Dimension(config.perMethod, req.verb)
                                + Dimension(config.hasLookup, req.lookup)
  {
    var withRoute := Push([Namespace], config.perRoute, req.path);
    var withMethod := Push(withRoute, config.perMethod, req.verb);
    JoinPush([Namespace], config.perRoute, req.path);
    JoinPush(withRoute, config.perMethod, req.verb);
    JoinPush(withMethod, config.hasLookup, req.lookup);
  }

  /** With no dimension enabled every request shares the key "cattleguard". */
  lemma KeyWithoutDimensions(config: Config, req: Request)
    requires !config.perRoute && !config.perMethod && !config.hasLookup
    ensures Key(config, req) == "cattleguard"
  {
    KeyLayout(config, req);
  }

  /** Requests that agree on every enabled dimension share a key. */
  lemma KeyIgnoresDisabledDimensions(config: Config, a: Request, b: Request)
    requires config.perRoute ==> Text(a.path) == Text(b.path)
    requires config.perMethod ==> Text(a.verb) == Text(b.verb)
    requires config.hasLookup ==> Text(a.lookup) == Text(b.lookup)
    ensures Key(config, a) == Key(config, b)
  {
    KeyLayout(config, a);
    KeyLayout(config, b);
  }

  /**
   * The converse fails: a route containing "::" can make two requests that
   * differ on an enabled dimension share a key.
   */
  lemma KeyCollision()
    ensures var config := Config(1, 1000, true, true, false);
            var a := Request(Some("/a::GET"), Some("POST"), None);
            var b := Request(Some("/a"), Some("GET::POST"), None);
            a.path != b.path && Key(config, a) == Key(config, b)
  {
    var config := Config(1, 1000, true, true, false);
    var a := Request(Some("/a::GET"), Some("POST"), None);
    var b := Request(Some("/a"), Some("GET::POST"), None);
    KeyLayout(config, a);
    KeyLayout(config, b);
    assert a.path.value == "/a" + Separator + "GET";
    assert b.verb.value == "GET" + Separator + "POST";
    SeparatorMoves(Namespace, "/a", "GET", "POST");
  }

  /** Where a separator sits between two parts is invisible once they are joined. */
  lemma SeparatorMoves(n: string, r: string, g: string, p: string)
    ensures n + (Separator + (r + Separator + g)) + (Separator + p) + ""
            == n + (Separator + r) + (Separator + (g + Separator + p)) + ""
  {
  }

  // ---------------------------------------------------------------------
  // Error paths

  /**
   * A failing get is forwarded to next as it is; nothing is written, no
   * pexpire, no header and no rate-limited callback.
   */
  lemma GetErrorForwarded(config: Config, entries: map<string, Window>, hasPexpire: bool, key: string,
                          now: int, getFault: Option<string>, setFault: Option<string>)
    requires getFault.Some?
    ensures var o := Step(config, entries, hasPexpire, key, now, getFault, setFault);
            o.calls == [StoreGet(key), CallNext(getFault)] && o.entries == entries
  {
  }

  /**
   * A failing set is forwarded to next as it is after the write was tried;
   * the store keeps its old contents, and neither pexpire nor the
   * rate-limited callback is called.
   */
  lemma SetErrorForwarded(config: Config, entries: map<string, Window>, hasPexpire: bool, key: string,
                          now: int, setFault: Option<string>)
    requires setFault.Some?
    ensures var o := Step(config, entries, hasPexpire, key, now, None, setFault);
            && o.entries == entries
            && o.calls == [StoreGet(key), StoreSet(key, Updated(config, Lookup(entries, key), now)), CallNext(setFault)]
            && forall i :: 0 <= i < |o.calls| ==> !o.calls[i].StorePexpire? && !o.calls[i].CallOnRateLimited?
  {
  }

  // ---------------------------------------------------------------------
  // Windows

  /** On a key with nothing stored, the check stores a full window less one hit. */
  lemma FreshKey(config: Config, entries: map<string, Window>, hasPexpire: bool, key: string, now: int)
    requires key !in entries
    ensures var o := Step(config, entries, hasPexpire, key, now, None, None);
            key in o.entries && o.entries[key] == Window(config.total, config.total - 1, now + config.expire)
  {
  }

  /**
   * Once `now` is past the stored reset, the window rolls over: a new reset
   * `expire` from now, the configured capacity less one hit, and the stored
   * total carried over.
   */
  lemma Rollover(config: Config, entries: map<string, Window>, hasPexpire: bool, key: string, now: int)
    requires key in entries && now > entries[key].reset
    ensures var o := Step(config, entries, hasPexpire, key, now, None, None);
            key in o.entries
            && o.entries[key] == Window(entries[key].total, config.total - 1, now + config.expire)
  {
  }

  /** Up to and including the reset instant, the stored window only loses one hit. */
  lemma SameWindow(config: Config, entries: map<string, Window>, hasPexpire: bool, key: string, now: int)
    requires key in entries && now <= entries[key].reset
    ensures var o := Step(config, entries, hasPexpire, key, now, None, None);
            && key in o.entries
            && o.entries[key].total == entries[key].total
            && o.entries[key].reset == entries[key].reset
            && o.entries[key].remaining == entries[key].remaining - 1
  {
  }

  /**
   * A check writes no key but its own, and writes that one only when both
   * get and set succeed; the written window has exactly one hit fewer than
   * the effective window, however far below zero that takes it.
   */
  lemma OnlyOwnKeyWritten(config: Config, entries: map<string, Window>, hasPexpire: bool, key: string,
                          now: int, getFault: Option<string>, setFault: Option<string>)
    ensures var o := Step(config, entries, hasPexpire, key, now, getFault, setFault);
            && (forall k :: k != key ==> (k in o.entries <==> k in entries))
            && (forall k :: k != key && k in entries ==> o.entries[k] == entries[k])
            && (getFault.Some? || setFault.Some? ==> o.entries == entries)
            && (getFault.None? && setFault.None? ==>
                  key in o.entries
                  && o.entries[key].remaining == Effective(config, Lookup(entries, key), now).remaining - 1)
  {
  }

  /**
   * The pexpire argument is never negative when `expire` is not, and is
   * exactly `expire` for a fresh or rolled-over window.
   */
  lemma ExpireArgument(config: Config, stored: Option<Window>, now: int)
    requires config.expire >= 0
    ensures Updated(config, stored, now).reset - now >= 0
    ensures stored.None? || now > stored.value.reset ==> Updated(config, stored, now).reset - now == config.expire
  {
  }

  /**
   * After a successful set, pexpire is called, right after the set, with
   * the same key and the time left in the window, whatever the decision;
   * it is not called when the store lacks it.
   */
  lemma PexpireAfterSet(config: Config, entries: map<string, Window>, hasPexpire: bool, key: string, now: int)
    ensures var o := Step(config, entries, hasPexpire, key, now, None, None);
            && key in o.entries
            && (hasPexpire ==> |o.calls| > 2 && o.calls[2] == StorePexpire(key, o.entries[key].reset - now))
            && (!hasPexpire ==> forall i :: 0 <= i < |o.calls| ==> !o.calls[i].StorePexpire?)
  {
  }

  /**
   * After a successful set the request is allowed exactly when the written
   * window has hits left (zero included): then next is called with no error
   * and nothing else follows; otherwise Retry-After is set to the seconds
   * left, rounded up, the rate-limited callback is called after it, and
   * next is not called at all.
   */
  lemma Decision(config: Config, entries: map<string, Window>, hasPexpire: bool, key: string, now: int)
    ensures var o := Step(config, entries, hasPexpire, key, now, None, None);
            && key in o.entries
            && |o.calls| >= 3
            && (Allowed(o.calls) <==> o.entries[key].remaining >= 0)
            && (o.entries[key].remaining >= 0 ==>
                  o.calls[|o.calls| - 1] == CallNext(None)
                  && forall i :: 0 <= i < |o.calls| ==> !o.calls[i].SetHeader? && !o.calls[i].CallOnRateLimited?)
            && (o.entries[key].remaining < 0 ==>
                  o.calls[|o.calls| - 2] == SetHeader(RetryAfterHeader, RetryAfter(o.entries[key].reset - now))
                  && o.calls[|o.calls| - 1] == CallOnRateLimited
                  && forall i :: 0 <= i < |o.calls| ==> !o.calls[i].CallNext?)
  {
    var o := Step(config, entries, hasPexpire, key, now, None, None);
    var limit := Updated(config, Lookup(entries, key), now);
    var tail := Respond(Decide(limit, now));
    assert o.calls == [StoreGet(key), StoreSet(key, limit)] + Expiry(hasPexpire, key, limit.reset - now) + tail;
    if limit.remaining < 0 {
      assert !Allowed(o.calls) by {
        forall i | 0 <= i < |o.calls| ensures !o.calls[i].CallNext? {
        }
      }
    }
  }

  // ---------------------------------------------------------------------
  // Store invariant

  /**
   * Every stored window was made under `config`: it carries the configured
   * total and has fewer hits left than that total.
   */
  predicate Consistent(config: Config, entries: map<string, Window>) {
    forall k :: k in entries ==> entries[k].total == config.total && entries[k].remaining < config.total
  }

  /** Every check keeps a consistent store consistent, whether it fails or not. */
  lemma StepKeepsConsistent(config: Config, entries: map<string, Window>, hasPexpire: bool, key: string,
                            now: int, getFault: Option<string>, setFault: Option<string>)
    requires Consistent(config, entries)
    ensures Consistent(config, Step(config, entries, hasPexpire, key, now, getFault, setFault).entries)
  {
  }

  /** A stored reset never moves back: it stays, or moves forward on rollover. */
  lemma ResetNeverDecreases(config: Config, entries: map<string, Window>, hasPexpire: bool, key: string, now: int)
    requires config.expire >= 0 && key in entries
    ensures var o := Step(config, entries, hasPexpire, key, now, None, None);
            && key in o.entries
            && o.entries[key].reset >= entries[key].reset
            && (o.entries[key].reset != entries[key].reset ==> now > entries[key].reset)
  {
  }

  // ---------------------------------------------------------------------
  // A fixed window

  /**
   * A replay is the series of checks it stands for: the first outcome is the
   * check on the starting store, and each later one is the check at its own
   * time on the store the previous one left.
   */
  lemma {:induction false} ReplaySteps(config: Config, entries: map<string, Window>, hasPexpire: bool,
                                       key: string, times: seq<int>)
    ensures var os := Replay(config, entries, hasPexpire, key, times);
            && (|times| > 0 ==> os[0] == Step(config, entries, hasPexpire, key, times[0], None, None))
            && forall i, j :: 0 <= i && j == i + 1 && j < |times| ==>
                 os[j] == Step(config, os[i].entries, hasPexpire, key, times[j], None, None)
    decreases |times|
  {
    if times != [] {
      var o := Step(config, entries, hasPexpire, key, times[0], None, None);
      var later := times[1..];
      var rest := Replay(config, o.entries, hasPexpire, key, later);
      ReplaySteps(config, o.entries, hasPexpire, key, later);
      var os := Replay(config, entries, hasPexpire, key, times);
      assert os == [o] + rest;
      forall i, j | 0 <= i && j == i + 1 && j < |times|
        ensures os[j] == Step(config, os[i].entries, hasPexpire, key, times[j], None, None)
      {
        assert os[j] == rest[i] && later[i] == times[j];
        if i > 0 {
          assert os[i] == rest[i - 1];
        }
      }
    }
  }

  /**
   * `o` left `key` holding window `w` with `n` more hits taken, and decided
   * at time `now` accordingly: allowed exactly while hits remain, otherwise
   * with Retry-After set to the seconds left in `w`.
   */
  predicate Charged(o: Outcome, key: string, w: Window, n: int, now: int) {
    && key in o.entries
    && o.entries[key] == w.(remaining := w.remaining - n)
    && (Allowed(o.calls) <==> w.remaining - n >= 0)
    && (!Allowed(o.calls) ==> SetHeader(RetryAfterHeader, RetryAfter(w.reset - now)) in o.calls)
  }

  /** One error-free check up to the stored reset takes one hit from the stored window. */
  lemma ChargeWithinWindow(config: Config, entries: map<string, Window>, hasPexpire: bool, key: string, now: int)
    requires key in entries && now <= entries[key].reset
    ensures var o := Step(config, entries, hasPexpire, key, now, None, None);
            o.entries == entries[key := entries[key].(remaining := entries[key].remaining - 1)]
            && Charged(o, key, entries[key], 1, now)
  {
    var o := Step(config, entries, hasPexpire, key, now, None, None);
    Decision(config, entries, hasPexpire, key, now);
    assert !Allowed(o.calls) ==> o.calls[|o.calls| - 2] in o.calls;
  }

  /** A hit charged to the window after one more hit is the next hit charged to the window before it. */
  lemma ChargedShift(o: Outcome, key: string, w: Window, n: int, now: int)
    requires Charged(o, key, w.(remaining := w.remaining - 1), n, now)
    ensures Charged(o, key, w, n + 1, now)
  {
    assert w.(remaining := w.remaining - 1).(remaining := w.remaining - 1 - n) == w.(remaining := w.remaining - (n + 1));
  }

  /**
   * A first check that takes one hit from `w`, followed by checks that take
   * one hit after another from what it left, takes hit after hit from `w`.
   */
  lemma ChargedCons(o: Outcome, rest: seq<Outcome>, key: string, w: Window, times: seq<int>, later: seq<int>)
    requires |times| == |rest| + 1 && later == times[1..]
    requires Charged(o, key, w, 1, times[0])
    requires forall i :: 0 <= i < |rest| ==> Charged(rest[i], key, w.(remaining := w.remaining - 1), i + 1, later[i])
    ensures forall i :: 0 <= i < |times| ==> Charged(([o] + rest)[i], key, w, i + 1, times[i])
  {
    var os := [o] + rest;
    forall i | 1 <= i < |times|
      ensures Charged(os[i], key, w, i + 1, times[i])
    {
      assert os[i] == rest[i - 1] && later[i - 1] == times[i];
      ChargedShift(rest[i - 1], key, w, i, times[i]);
    }
  }

  /**
   * Checks at times up to the stored reset, on a store that does not evict
   * the key, each take one more hit from the same window: the i-th leaves
   * `remaining - 1 - i`, is allowed exactly while that is not negative, and
   * otherwise carries the seconds left.
   */
  lemma {:induction false} ChecksWithinWindow(config: Config, entries: map<string, Window>, hasPexpire: bool,
                                              key: string, times: seq<int>)
    requires key in entries
    requires forall i :: 0 <= i < |times| ==> times[i] <= entries[key].reset
    ensures var os := Replay(config, entries, hasPexpire, key, times);
            forall i :: 0 <= i < |times| ==> Charged(os[i], key, entries[key], i + 1, times[i])
    decreases |times|
  {
    if times != [] {
      var w := entries[key];
      var o := Step(config, entries, hasPexpire, key, times[0], None, None);
      ChargeWithinWindow(config, entries, hasPexpire, key, times[0]);
      var later := times[1..];
      var w' := o.entries[key];
      assert w' == w.(remaining := w.remaining - 1);
      ChecksWithinWindow(config, o.entries, hasPexpire, key, later);
      var rest := Replay(config, o.entries, hasPexpire, key, later);
      assert Replay(config, entries, hasPexpire, key, times) == [o] + rest;
      ChargedCons(o, rest, key, w, times, later);
    }
  }

  /**
   * A first check that leaves `w` with `total - 1` hits, followed by checks
   * that take hit after hit from `w`, lets exactly the first `total` through.
   */
  lemma QuotaCons(o: Outcome, rest: seq<Outcome>, key: string, w: Window, later: seq<int>, total: int)
    requires key in o.entries && o.entries[key] == w && w.remaining == total - 1
    requires Allowed(o.calls) <==> w.remaining >= 0
    requires |later| == |rest|
    requires forall i :: 0 <= i < |rest| ==> Charged(rest[i], key, w, i + 1, later[i])
    ensures forall i :: 0 <= i < |rest| + 1 ==>
              && key in ([o] + rest)[i].entries
              && ([o] + rest)[i].entries[key].remaining == total - 1 - i
              && ([o] + rest)[i].entries[key].reset == w.reset
              && (Allowed(([o] + rest)[i].calls) <==> i < total)
  {
    var os := [o] + rest;
    forall i | 1 <= i < |os|
      ensures && key in os[i].entries
              && os[i].entries[key].remaining == total - 1 - i
              && os[i].entries[key].reset == w.reset
              && (Allowed(os[i].calls) <==> i < total)
    {
      assert os[i] == rest[i - 1];
    }
  }

  /**
   * The quota of a fixed window, on a store that does not evict the key:
   * when the first of a series of checks finds no live window, and every
   * later one comes no more than `expire` after it, exactly the first
   * `total` checks are allowed, and the i-th leaves `total - 1 - i` hits in
   * a window ending `expire` after the first check.
   */
  lemma FixedWindowQuota(config: Config, entries: map<string, Window>, hasPexpire: bool, key: string,
                         times: seq<int>)
    requires |times| > 0
    requires key !in entries || times[0] > entries[key].reset
    requires forall i :: 1 <= i < |times| ==> times[i] <= times[0] + config.expire
    ensures var os := Replay(config, entries, hasPexpire, key, times);
            forall i :: 0 <= i < |times| ==>
              && key in os[i].entries
              && os[i].entries[key].remaining == config.total - 1 - i
              && os[i].entries[key].reset == times[0] + config.expire
              && (Allowed(os[i].calls) <==> i < config.total)
  {
    var o := Step(config, entries, hasPexpire, key, times[0], None, None);
    Decision(config, entries, hasPexpire, key, times[0]);
    var w := o.entries[key];
    assert w.remaining == config.total - 1 && w.reset == times[0] + config.expire;
    var later := times[1..];
    ChecksWithinWindow(config, o.entries, hasPexpire, key, later);
    var rest := Replay(config, o.entries, hasPexpire, key, later);
    assert Replay(config, entries, hasPexpire, key, times) == [o] + rest;
    QuotaCons(o, rest, key, w, later, config.total);
  }
}
