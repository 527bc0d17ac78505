/**
 * The Redis fixed-window counter: one atomic script increments a window's counter and gives it a
 * time to live when it has none.  `now` is the client's clock, which picks the window; `at` is the
 * time at which Redis runs the script.
 */
module RateLimit {
  import opened Prelude

  /** A window length in milliseconds. */
  type Millis = w: int | w >= 1 witness 1

  datatype RedisKey = RedisKey(key: string, window: int)

  datatype Cell = Cell(count: nat, expireAt: Option<int>)

  type Keyspace = map<RedisKey, Cell>

  datatype Request = Request(key: string, windowMs: Millis, now: int, at: int)

  /** A served increment with the count it returned. */
  datatype Hit = Hit(request: Request, count: nat)

  function WindowOf(now: int, windowMs: Millis): int
  {
    now / windowMs
  }

  predicate Live(store: Keyspace, k: RedisKey, at: int) {
    k in store && (store[k].expireAt.Some? ==> at < store[k].expireAt.value)
  }

  /** INCR, then PEXPIRE only when the key has no expiry; an expired key counts from nothing. */
  function Script(store: Keyspace, k: RedisKey, ttlMs: int, at: int): Cell {
    var cell := if Live(store, k, at) then store[k] else Cell(0, None);
    Cell(cell.count + 1, if cell.expireAt.None? then Some(at + ttlMs) else cell.expireAt)
  }

  function KeyOf(r: Request): RedisKey
  {
    RedisKey(r.key, WindowOf(r.now, r.windowMs))
  }

  function Increment(store: Keyspace, r: Request): Cell
  {
    Script(store, KeyOf(r), r.windowMs * 2, r.at)
  }

  function ResetMs(now: int, windowMs: Millis): int
  {
    Max(0, WindowOf(now, windowMs) * windowMs + windowMs - now)
  }

  function RetryAfterSeconds(resetMs: nat): nat {
    (resetMs + 999) / 1000
  }

  datatype State = State(store: Keyspace, hits: seq<Hit>)

  function Step(s: State, r: Request): State
  {
    var cell := Increment(s.store, r);
    State(s.store[KeyOf(r) := cell], s.hits + [Hit(r, cell.count)])
  }

  function Run(s: State, rs: seq<Request>): State
    decreases |rs|
  {
    if rs == [] then s else Run(Step(s, rs[0]), rs[1..])
  }

  /** Requests served so far on a key in one window. */
  function Served(hits: seq<Hit>, key: string, window: int, windowMs: Millis): nat
  {
    if hits == [] then 0
    else
      var h := hits[|hits| - 1];
      Served(hits[..|hits| - 1], key, window, windowMs) +
      if h.request.key == key && WindowOf(h.request.now, windowMs) == window then 1 else 0
  }

  /** Of those, the ones whose count was within the limit. */
  function Admitted(hits: seq<Hit>, key: string, window: int, windowMs: Millis, limit: nat): nat
  {
    if hits == [] then 0
    else
      var h := hits[|hits| - 1];
      Admitted(hits[..|hits| - 1], key, window, windowMs, limit) +
      if h.request.key == key && WindowOf(h.request.now, windowMs) == window && h.count <= limit then 1 else 0
  }

  /** Requests on a key admitted with a clock reading between `from` and `to`, both included. */
  function AdmittedBetween(hits: seq<Hit>, key: string, from: int, to: int, limit: nat): nat {
    if hits == [] then 0
    else
      var h := hits[|hits| - 1];
      AdmittedBetween(hits[..|hits| - 1], key, from, to, limit) +
      if h.request.key == key && from <= h.request.now <= to && h.count <= limit then 1 else 0
  }

  /** The key keeps one window length, and Redis runs the script within one window after the clock reading. */
  predicate Prompt(r: Request, key: string, windowMs: Millis) {
    r.key == key ==> r.windowMs == windowMs && r.now <= r.at <= r.now + windowMs
  }

  predicate Untouched(s: State, key: string) {
    s.hits == [] && forall k :: k in s.store ==> k.key != key
  }

  lemma WindowBounds(now: int, windowMs: Millis)
    ensures WindowOf(now, windowMs) * windowMs <= now < WindowOf(now, windowMs) * windowMs + windowMs
  {
  }

  /** Every window's counter holds the number of requests served in it and outlives the window by one length. */
  ghost predicate CounterInv(s: State, key: string, windowMs: Millis)
  {
    forall n: int ::
      var k, served := RedisKey(key, n), Served(s.hits, key, n, windowMs);
      if served == 0 then k !in s.store
      else
        && k in s.store && s.store[k].count == served
        && s.store[k].expireAt.Some? && s.store[k].expireAt.value >= n * windowMs + 2 * windowMs
  }

  /** The counter is still there when its window asks for it: its expiry lies beyond any prompt script run. */
  lemma CounterSurvivesItsWindow(s: State, r: Request, key: string, windowMs: Millis)
    requires CounterInv(s, key, windowMs) && Prompt(r, key, windowMs) && r.key == key
    ensures KeyOf(r) in s.store ==> Live(s.store, KeyOf(r), r.at)
    ensures Increment(s.store, r).count == Served(s.hits, key, WindowOf(r.now, windowMs), windowMs) + 1
  {
  }

  lemma CounterInvStep(s: State, r: Request, key: string, windowMs: Millis)
    requires CounterInv(s, key, windowMs) && Prompt(r, key, windowMs)
    ensures CounterInv(Step(s, r), key, windowMs)
  {
  }

  /** Counts come out as 1, 2, 3, ... within a window, so the admitted ones are the first `limit`. */
  ghost predicate AdmitInv(s: State, key: string, windowMs: Millis, limit: nat)
  {
    forall n: int ::
      Admitted(s.hits, key, n, windowMs, limit) ==
      if Served(s.hits, key, n, windowMs) <= limit then Served(s.hits, key, n, windowMs) else limit
  }

  lemma AdmitInvStep(s: State, r: Request, key: string, windowMs: Millis, limit: nat)
    requires Prompt(r, key, windowMs)
    requires CounterInv(s, key, windowMs) && AdmitInv(s, key, windowMs, limit)
    ensures AdmitInv(Step(s, r), key, windowMs, limit)
  {
  }

  lemma {:induction false} LimitRun(s: State, rs: seq<Request>, key: string, windowMs: Millis, limit: nat)
    requires forall i :: 0 <= i < |rs| ==> Prompt(rs[i], key, windowMs)
    requires CounterInv(s, key, windowMs) && AdmitInv(s, key, windowMs, limit)
    ensures CounterInv(Run(s, rs), key, windowMs) && AdmitInv(Run(s, rs), key, windowMs, limit)
    decreases |rs|
  {
    if rs != [] {
      CounterInvStep(s, rs[0], key, windowMs);
      AdmitInvStep(s, rs[0], key, windowMs, limit);
      LimitRun(Step(s, rs[0]), rs[1..], key, windowMs, limit);
    }
  }

  /** Per aligned window exactly the first `limit` requests are admitted, whatever else happens in the store. */
  lemma WindowBound(s: State, rs: seq<Request>, key: string, windowMs: Millis, limit: nat, window: int)
    requires Untouched(s, key)
    requires forall i :: 0 <= i < |rs| ==> Prompt(rs[i], key, windowMs)
    ensures
      var served := Served(Run(s, rs).hits, key, window, windowMs);
      Admitted(Run(s, rs).hits, key, window, windowMs, limit) == if served <= limit then served else limit
  {
    LimitRun(s, rs, key, windowMs, limit);
  }

  /** An interval of one window length lies in two aligned windows. */
  lemma {:induction false} IntervalInTwoWindows(hits: seq<Hit>, key: string, windowMs: Millis, limit: nat, from: int)
    ensures
      var n := WindowOf(from, windowMs);
      AdmittedBetween(hits, key, from, from + windowMs, limit) <=
      Admitted(hits, key, n, windowMs, limit) + Admitted(hits, key, n + 1, windowMs, limit)
    decreases |hits|
  {
    if hits != [] {
      var h := hits[|hits| - 1];
      IntervalInTwoWindows(hits[..|hits| - 1], key, windowMs, limit, from);
      if from <= h.request.now <= from + windowMs {
        WindowOfInterval(from, h.request.now, windowMs);
      }
    }
  }

  lemma WindowOfInterval(from: int, now: int, windowMs: Millis)
    requires from <= now <= from + windowMs
    ensures WindowOf(now, windowMs) == WindowOf(from, windowMs)
            || WindowOf(now, windowMs) == WindowOf(from, windowMs) + 1
  {
    var n, m := WindowOf(from, windowMs), WindowOf(now, windowMs);
    WindowBounds(from, windowMs);
    WindowBounds(now, windowMs);
    assert m * windowMs + windowMs == (m + 1) * windowMs;
    assert (n + 2) * windowMs == n * windowMs + windowMs + windowMs;
    if m < n {
      Scaled(m + 1, n, windowMs);
    } else if m > n + 1 {
      Scaled(n + 2, m, windowMs);
    }
  }

  lemma Scaled(a: int, b: int, windowMs: Millis)
    requires a <= b
    ensures a * windowMs <= b * windowMs
  {
  }

  /** At most twice the limit in any interval of one window length, wherever it starts. */
  lemma SlidingBound(s: State, rs: seq<Request>, key: string, windowMs: Millis, limit: nat, from: int)
    requires Untouched(s, key)
    requires forall i :: 0 <= i < |rs| ==> Prompt(rs[i], key, windowMs)
    ensures AdmittedBetween(Run(s, rs).hits, key, from, from + windowMs, limit) <= 2 * limit
  {
    LimitRun(s, rs, key, windowMs, limit);
    IntervalInTwoWindows(Run(s, rs).hits, key, windowMs, limit, from);
  }

  function Repeat(r: Request, n: nat): seq<Request> {
    if n == 0 then [] else Repeat(r, n - 1) + [r]
  }

  lemma RunSnoc(s: State, rs: seq<Request>, r: Request)
    ensures Run(s, rs + [r]) == Step(Run(s, rs), r)
    decreases |rs|
  {
    if rs != [] {
      assert (rs + [r])[0] == rs[0] && (rs + [r])[1..] == rs[1..] + [r];
      RunSnoc(Step(s, rs[0]), rs[1..], r);
    } else {
      assert [] + [r] == [r] && [r][1..] == [];
    }
  }

  /** `n` requests at the last millisecond of window 0, or at the first of window 1. */
  function Burst(key: string, windowMs: Millis, window: nat, n: nat): seq<Request> {
    var now := if window == 0 then windowMs - 1 else windowMs;
    Repeat(Request(key, windowMs, now, now), n)
  }

  /** One more admitted request at the boundary between windows 0 and 1. */
  lemma BoundaryStep(s: State, r: Request, key: string, windowMs: Millis, limit: nat)
    requires CounterInv(s, key, windowMs) && r.key == key && r.windowMs == windowMs && r.at == r.now
    requires windowMs - 1 <= r.now <= windowMs
    requires Served(s.hits, key, WindowOf(r.now, windowMs), windowMs) < limit
    ensures CounterInv(Step(s, r), key, windowMs)
    ensures WindowOf(windowMs - 1, windowMs) == 0 && WindowOf(windowMs, windowMs) == 1
    ensures forall n :: Served(Step(s, r).hits, key, n, windowMs) ==
              Served(s.hits, key, n, windowMs) + if n == WindowOf(r.now, windowMs) then 1 else 0
    ensures AdmittedBetween(Step(s, r).hits, key, windowMs - 1, windowMs, limit) ==
            AdmittedBetween(s.hits, key, windowMs - 1, windowMs, limit) + 1
  {
    CounterSurvivesItsWindow(s, r, key, windowMs);
    CounterInvStep(s, r, key, windowMs);
    assert Step(s, r).hits[..|s.hits|] == s.hits;
  }

  lemma {:induction false} BurstServes(s: State, key: string, windowMs: Millis, limit: nat, window: nat, n: nat)
    requires CounterInv(s, key, windowMs) && window <= 1 && n <= limit
    requires Served(s.hits, key, window, windowMs) == 0
    ensures
      var s' := Run(s, Burst(key, windowMs, window, n));
      && CounterInv(s', key, windowMs)
      && Served(s'.hits, key, window, windowMs) == n
      && Served(s'.hits, key, 1 - window, windowMs) == Served(s.hits, key, 1 - window, windowMs)
      && AdmittedBetween(s'.hits, key, windowMs - 1, windowMs, limit) ==
         AdmittedBetween(s.hits, key, windowMs - 1, windowMs, limit) + n
    decreases n
  {
    if n > 0 {
      var now := if window == 0 then windowMs - 1 else windowMs;
      var r := Request(key, windowMs, now, now);
      assert WindowOf(now, windowMs) == window;
      BurstServes(s, key, windowMs, limit, window, n - 1);
      RunSnoc(s, Burst(key, windowMs, window, n - 1), r);
      BoundaryStep(Run(s, Burst(key, windowMs, window, n - 1)), r, key, windowMs, limit);
    }
  }

  lemma {:induction false} RunAppend(s: State, rs: seq<Request>, more: seq<Request>)
    ensures Run(s, rs + more) == Run(Run(s, rs), more)
    decreases |rs|
  {
    if rs == [] {
      assert rs + more == more;
    } else {
      assert (rs + more)[1..] == rs[1..] + more;
      RunAppend(Step(s, rs[0]), rs[1..], more);
    }
  }

  /** The factor two is met: the counter is a fixed window, not the sliding one its description claims. */
  lemma SlidingBoundIsTight(key: string, windowMs: Millis, limit: nat)
    ensures
      var rs := Burst(key, windowMs, 0, limit) + Burst(key, windowMs, 1, limit);
      AdmittedBetween(Run(State(map[], []), rs).hits, key, windowMs - 1, windowMs, limit) == 2 * limit
  {
    var s0 := State(map[], []);
    BurstServes(s0, key, windowMs, limit, 0, limit);
    var s1 := Run(s0, Burst(key, windowMs, 0, limit));
    BurstServes(s1, key, windowMs, limit, 1, limit);
    RunAppend(s0, Burst(key, windowMs, 0, limit), Burst(key, windowMs, 1, limit));
  }

  ghost predicate PromptRun(rs: seq<Request>, key: string, windowMs: Millis) {
    forall i :: 0 <= i < |rs| ==> Prompt(rs[i], key, windowMs)
  }

  /** A run admits at most the limit in the stretch that starts at `from` and is as long as the window. */
  predicate BoundedFrom(rs: seq<Request>, key: string, windowMs: Millis, limit: nat, from: int) {
    AdmittedBetween(Run(State(map[], []), rs).hits, key, from, from + windowMs - 1, limit) <= limit
  }

  /** What a sliding window promises: the bound holds wherever the stretch starts. */
  ghost predicate Slides(key: string, windowMs: Millis, limit: nat) {
    forall rs, from :: PromptRun(rs, key, windowMs) ==> BoundedFrom(rs, key, windowMs, limit, from)
  }

  lemma {:induction false} LongerAdmitsMore(hits: seq<Hit>, key: string, from: int, upTo: int, later: int, limit: nat)
    requires upTo <= later
    ensures AdmittedBetween(hits, key, from, upTo, limit) <= AdmittedBetween(hits, key, from, later, limit)
    decreases |hits|
  {
    if hits != [] {
      LongerAdmitsMore(hits[..|hits| - 1], key, from, upTo, later, limit);
    }
  }

  /** A window of one millisecond is an aligned one. */
  lemma {:induction false} MillisecondIsAWindow(hits: seq<Hit>, key: string, from: int, limit: nat)
    ensures AdmittedBetween(hits, key, from, from, limit) == Admitted(hits, key, from, 1, limit)
    decreases |hits|
  {
    if hits != [] {
      MillisecondIsAWindow(hits[..|hits| - 1], key, from, limit);
    }
  }

  lemma {:induction false} BurstIsPrompt(key: string, windowMs: Millis, window: nat, n: nat)
    ensures PromptRun(Burst(key, windowMs, window, n), key, windowMs)
    decreases n
  {
    if n > 0 {
      BurstIsPrompt(key, windowMs, window, n - 1);
    }
  }

  /** The counter keeps that promise exactly if it admits nothing or its window is one millisecond. */
  lemma SlidesOnlyIfTrivial(key: string, windowMs: Millis, limit: nat)
    ensures Slides(key, windowMs, limit) <==> limit == 0 || windowMs == 1
  {
    var s0 := State(map[], []);
    if limit == 0 || windowMs == 1 {
      forall rs, from | PromptRun(rs, key, windowMs)
        ensures BoundedFrom(rs, key, windowMs, limit, from)
      {
        if limit == 0 {
          SlidingBound(s0, rs, key, windowMs, limit, from);
          LongerAdmitsMore(Run(s0, rs).hits, key, from, from + windowMs - 1, from + windowMs, limit);
        } else {
          WindowBound(s0, rs, key, windowMs, limit, from);
          MillisecondIsAWindow(Run(s0, rs).hits, key, from, limit);
        }
      }
    } else {
      var rs := Burst(key, windowMs, 0, limit) + Burst(key, windowMs, 1, limit);
      BurstIsPrompt(key, windowMs, 0, limit);
      BurstIsPrompt(key, windowMs, 1, limit);
      assert PromptRun(rs, key, windowMs);
      SlidingBoundIsTight(key, windowMs, limit);
      LongerAdmitsMore(Run(s0, rs).hits, key, windowMs - 1, windowMs, windowMs - 1 + windowMs - 1, limit);
      assert !BoundedFrom(rs, key, windowMs, limit, windowMs - 1);
    }
  }

  /** The reset time leads exactly to the first millisecond of the next window. */
  lemma ResetIsTheNextWindow(now: int, windowMs: Millis, wait: int)
    ensures 1 <= ResetMs(now, windowMs) <= windowMs
    ensures 0 <= wait < ResetMs(now, windowMs) ==> WindowOf(now + wait, windowMs) == WindowOf(now, windowMs)
    ensures WindowOf(now + ResetMs(now, windowMs), windowMs) == WindowOf(now, windowMs) + 1
  {
    var n := WindowOf(now, windowMs);
    WindowBounds(now, windowMs);
    assert (n + 1) * windowMs == n * windowMs + windowMs;
    if 0 <= wait < ResetMs(now, windowMs) {
      InWindow(now + wait, n, windowMs);
    }
    InWindow(now + ResetMs(now, windowMs), n + 1, windowMs);
  }

  lemma InWindow(now: int, n: int, windowMs: Millis)
    requires n * windowMs <= now < n * windowMs + windowMs
    ensures WindowOf(now, windowMs) == n
  {
    var m := WindowOf(now, windowMs);
    WindowBounds(now, windowMs);
    assert (m + 1) * windowMs == m * windowMs + windowMs && (n + 1) * windowMs == n * windowMs + windowMs;
    if m < n {
      Scaled(m + 1, n, windowMs);
    } else if m > n {
      Scaled(n + 1, m, windowMs);
    }
  }

  /**
   * A client that waits for Retry-After asks in a later window; the wait is at least one second and
   * less than one too long.
   */
  lemma RetryAfterReachesNextWindow(now: int, windowMs: Millis, wait: int)
    requires wait >= 1000 * RetryAfterSeconds(ResetMs(now, windowMs))
    ensures WindowOf(now + wait, windowMs) > WindowOf(now, windowMs)
    ensures RetryAfterSeconds(ResetMs(now, windowMs)) >= 1
    ensures 1000 * RetryAfterSeconds(ResetMs(now, windowMs)) < ResetMs(now, windowMs) + 1000
  {
    WindowBounds(now, windowMs);
    var n := WindowOf(now, windowMs);
    var later := now + wait;
    assert later >= n * windowMs + windowMs;
    WindowBounds(later, windowMs);
    if WindowOf(later, windowMs) <= n {
      Scaled(WindowOf(later, windowMs), n, windowMs);
    }
  }

  /** The Redis key text names key and window unambiguously, although keys may contain colons. */
  lemma RedisKeyTextInjective(key: string, window: nat, key': string, window': nat)
    requires "rl:" + key + ":" + Decimal(window) == "rl:" + key' + ":" + Decimal(window')
    ensures key == key' && window == window'
  {
    var d, d' := Decimal(window), Decimal(window');
    var s := "rl:" + key + ":" + d;
    DecimalIsDigits(window);
    DecimalIsDigits(window');
    assert s[|s| - |d| - 1] == ':' && s[|s| - |d'| - 1] == ':';
    assert forall k :: 0 <= k < |d| ==> s[|s| - |d| + k] == d[k];
    assert forall k :: 0 <= k < |d'| ==> s[|s| - |d'| + k] == d'[k];
    assert |d| == |d'|;
    assert d == s[|s| - |d|..] == d';
    DecimalInjective(window, window');
    assert key == s[3..|s| - |d| - 1] == key';
  }
}
