/** The sliding-window rate limiter: a pruned deque per key instead of the whole history of accepted calls. */
module RateLimit {
  import opened Wrappers

  /** `limit` calls within any `window` seconds. */
  datatype Rule = Rule(limit: int, window: int)

  /** The call is allowed, refused with a number of seconds to wait, or stopped by the index error of an empty deque. */
  datatype Answer = Allowed | RetryAfter(seconds: int) | IndexError

  predicate Sorted(h: seq<real>) { forall i, j | 0 <= i < j < |h| :: h[i] <= h[j] }

  /** How many of the accepted calls lie in (lo, hi]. */
  function Within(h: seq<real>, lo: real, hi: real): nat
    decreases |h|
  {
    if h == [] then 0
    else Within(h[..|h| - 1], lo, hi) + if lo < h[|h| - 1] <= hi then 1 else 0
  }

  /** The window that ends at `t` holds no more calls than the rule allows. */
  predicate WindowHolds(h: seq<real>, rule: Rule, t: real) { Within(h, t - rule.window as real, t) <= rule.limit }

  ghost predicate Bounded(h: seq<real>, rule: Rule) { forall t :: WindowHolds(h, rule, t) }

  /** The deque holds the accepted calls from some point on, and those before it are too old to matter. */
  ghost predicate Pruned(entries: seq<real>, h: seq<real>, clock: real, rule: Rule) {
    var lo := clock - rule.window as real;
    exists n: nat :: n <= |h| && Suffix(entries, h, n, lo)
  }

  predicate Suffix(entries: seq<real>, h: seq<real>, n: nat, lo: real)
    requires n <= |h|
  {
    entries == h[n..] && forall i | 0 <= i < n :: h[i] <= lo
  }

  lemma {:induction false} WithinSplit(h: seq<real>, n: nat, lo: real, hi: real)
    requires n <= |h|
    ensures Within(h, lo, hi) == Within(h[..n], lo, hi) + Within(h[n..], lo, hi)
    decreases |h|
  {
    if n == |h| {
      assert h[..n] == h;
    } else {
      WithinSplit(h[..|h| - 1], n, lo, hi);
      assert h[..|h| - 1][..n] == h[..n] && h[..|h| - 1][n..] == h[n..][..|h| - n - 1];
    }
  }

  lemma {:induction false} WithinNone(h: seq<real>, lo: real, hi: real)
    requires forall i | 0 <= i < |h| :: h[i] <= lo || hi < h[i]
    ensures Within(h, lo, hi) == 0
    decreases |h|
  {
    if h != [] { WithinNone(h[..|h| - 1], lo, hi); }
  }

  lemma {:induction false} WithinAll(h: seq<real>, lo: real, hi: real)
    requires forall i | 0 <= i < |h| :: lo < h[i] <= hi
    ensures Within(h, lo, hi) == |h|
    decreases |h|
  {
    if h != [] { WithinAll(h[..|h| - 1], lo, hi); }
  }

  lemma {:induction false} WithinMonotone(h: seq<real>, lo: real, hi: real, lo': real, hi': real)
    requires lo' <= lo && forall i | 0 <= i < |h| && h[i] <= hi :: h[i] <= hi'
    ensures Within(h, lo, hi) <= Within(h, lo', hi')
    decreases |h|
  {
    if h != [] { WithinMonotone(h[..|h| - 1], lo, hi, lo', hi'); }
  }

  /** A deque that starts inside the window has exactly the window's calls. */
  lemma DequeCounts(entries: seq<real>, h: seq<real>, n: nat, now: real, rule: Rule)
    requires n <= |h| && Suffix(entries, h, n, now - rule.window as real) && Sorted(h)
    requires forall i | 0 <= i < |h| :: h[i] <= now
    requires entries == [] || now - rule.window as real < entries[0]
    ensures |entries| == Within(h, now - rule.window as real, now)
  {
    var lo := now - rule.window as real;
    WithinSplit(h, n, lo, now);
    WithinNone(h[..n], lo, now);
    forall i | 0 <= i < |entries| ensures lo < entries[i] <= now { assert entries[i] == h[n + i] && h[n] <= h[n + i]; }
    WithinAll(entries, lo, now);
  }

  /** Accepting a call whose window has room keeps every window within the limit. */
  lemma AcceptKeepsBound(h: seq<real>, rule: Rule, now: real)
    requires Bounded(h, rule) && Within(h, now - rule.window as real, now) < rule.limit
    requires forall i | 0 <= i < |h| :: h[i] <= now
    ensures Bounded(h + [now], rule)
  {
    forall t ensures WindowHolds(h + [now], rule, t) {
      var w := rule.window as real;
      assert (h + [now])[..|h|] == h;
      assert WindowHolds(h, rule, t);
      if now <= t { WithinMonotone(h, t - w, t, now - w, now); }
    }
  }

  /** What the limiter keeps for one key between calls. */
  ghost predicate KeyOk(entries: seq<real>, h: seq<real>, clock: real, rule: Rule) {
    && Sorted(h) && (forall i | 0 <= i < |h| :: h[i] <= clock)
    && Pruned(entries, h, clock, rule)
    && (rule.limit >= 1 ==> Bounded(h, rule)) && (rule.limit < 1 ==> h == [])
  }

  lemma NewKeyOk(clock: real, rule: Rule)
    ensures KeyOk([], [], clock, rule)
  {
    assert Suffix([], [], 0, clock - rule.window as real);
    forall t | rule.limit >= 1 ensures WindowHolds([], rule, t) {
    }
  }

  lemma LaterKeyOk(entries: seq<real>, h: seq<real>, clock: real, rule: Rule, now: real)
    requires KeyOk(entries, h, clock, rule) && clock <= now
    ensures KeyOk(entries, h, now, rule)
  {
    var n: nat :| n <= |h| && Suffix(entries, h, n, clock - rule.window as real);
    assert Suffix(entries, h, n, now - rule.window as real);
  }

  lemma AcceptedKeyOk(entries: seq<real>, h: seq<real>, n: nat, now: real, rule: Rule)
    requires KeyOk(entries, h, now, rule) && n <= |h| && Suffix(entries, h, n, now - rule.window as real)
    requires rule.limit >= 1 && Within(h, now - rule.window as real, now) < rule.limit
    ensures KeyOk(entries + [now], h + [now], now, rule)
  {
    AcceptKeepsBound(h, rule, now);
    assert (h + [now])[n..] == h[n..] + [now];
    assert Suffix(entries + [now], h + [now], n, now - rule.window as real);
  }

  /** The call at index `i` is the oldest in the window that ends now. */
  predicate OldestIn(h: seq<real>, i: nat, now: real, rule: Rule) {
    && i < |h| && now - rule.window as real < h[i]
    && forall j | 0 <= j < i :: h[j] <= now - rule.window as real
  }

  function Wait(oldest: real, now: real, rule: Rule): int { Max(1, (oldest + rule.window as real - now).Floor) }

  /** The seconds until the oldest call in the window leaves it, cut to whole ones, and at least one. */
  predicate Waits(h: seq<real>, now: real, rule: Rule, seconds: int) {
    exists i :: 0 <= i < |h| && OldestIn(h, i, now, rule) && LeftOf(h[i] + rule.window as real - now, seconds)
  }

  predicate LeftOf(left: real, seconds: int) {
    seconds >= 1 && (seconds == 1 || seconds as real <= left) && left < seconds as real + 1.0
  }

  lemma WaitIsLeft(oldest: real, now: real, rule: Rule)
    ensures LeftOf(oldest + rule.window as real - now, Wait(oldest, now, rule))
  {
  }

  /** Nothing else is left of the same time. */
  lemma LeftIsUnique(left: real, m: int, n: int)
    requires LeftOf(left, m) && LeftOf(left, n)
    ensures m == n
  {
  }

  /** Every refusal tells the caller to wait at least a second and at most the window. */
  lemma RefusalBounds(answer: Answer, h: seq<real>, rule: Rule, now: real)
    requires Decision(answer, h, rule, now) && answer.RetryAfter? && forall i | 0 <= i < |h| :: h[i] <= now
    ensures 1 <= answer.seconds <= Max(1, rule.window)
  {
    var i :| 0 <= i < |h| && OldestIn(h, i, now, rule) && LeftOf(h[i] + rule.window as real - now, answer.seconds);
    assert h[i] + rule.window as real - now <= rule.window as real;
  }

  ghost predicate AllOk(events: map<string, seq<real>>, history: map<string, seq<real>>, rules: map<string, Rule>,
                        clock: real) {
    && events.Keys == history.Keys == rules.Keys
    && forall key {:trigger key in events} | key in events :: KeyOk(events[key], history[key], clock, rules[key])
  }

  /** The calls under a key; a key that was never used has none. */
  function Accepted(calls: map<string, seq<real>>, key: string): seq<real> { if key in calls then calls[key] else [] }

  lemma KnownKeyOk(events: map<string, seq<real>>, history: map<string, seq<real>>, rules: map<string, Rule>,
                   clock: real, key: string, rule: Rule, now: real)
    requires AllOk(events, history, rules, clock) && clock <= now && (key in rules ==> rules[key] == rule)
    ensures KeyOk(Accepted(events, key), Accepted(history, key), now, rule)
  {
    if key in events { LaterKeyOk(events[key], history[key], clock, rule, now); } else { NewKeyOk(now, rule); }
  }

  /** One key gets a new deque and history while the clock moves on for all. */
  lemma OneKeyMoves(events: map<string, seq<real>>, history: map<string, seq<real>>, rules: map<string, Rule>,
                    clock: real,
                    key: string, entries: seq<real>, h: seq<real>, rule: Rule, now: real)
    requires AllOk(events, history, rules, clock) && clock <= now && KeyOk(entries, h, now, rule)
    ensures AllOk(events[key := entries], history[key := h], rules[key := rule], now)
  {
    var events' := events[key := entries];
    forall k {:trigger k in events'} | k in events'
      ensures KeyOk(events'[k], history[key := h][k], now, rules[key := rule][k])
    {
      if k != key { LaterKeyOk(events[k], history[k], clock, rules[k], now); }
    }
  }

  function Extended(h: seq<real>, answer: Answer, now: real): seq<real> { if answer.Allowed? then h + [now] else h }

  /** What the answer says about the whole history `h` of the key. */
  predicate Decision(answer: Answer, h: seq<real>, rule: Rule, now: real) {
    match answer
    case Allowed => rule.limit >= 1 && Within(h, now - rule.window as real, now) < rule.limit
    case RetryAfter(seconds) =>
      rule.limit >= 1 && Within(h, now - rule.window as real, now) == rule.limit && Waits(h, now, rule, seconds)
    case IndexError => rule.limit < 1
  }

  class SlidingWindowRateLimiter {
    var events: map<string, seq<real>>
    /** All accepted calls, the rule of each key and the time of the last call. */
    ghost var history: map<string, seq<real>>
    ghost var rules: map<string, Rule>
    ghost var clock: real

    ghost predicate Valid()
      reads this
    {
      AllOk(events, history, rules, clock)
    }

    constructor (ghost start: real)
      ensures Valid() && history == map[] && clock == start
    {
      events, history, rules, clock := map[], map[], map[], start;
    }

    /** Pops the calls that left the window; what is left are the calls within it. */
    static method Prune(before: seq<real>, rule: Rule, now: real, ghost h: seq<real>)
      returns (entries: seq<real>, ghost n: nat)
      requires KeyOk(before, h, now, rule)
      ensures n <= |h| && Suffix(entries, h, n, now - rule.window as real) && KeyOk(entries, h, now, rule)
      ensures |entries| == Within(h, now - rule.window as real, now)
      ensures entries != [] ==> OldestIn(h, n, now, rule) && entries[0] == h[n]
    {
      entries := before;
      ghost var m: nat :| m <= |h| && Suffix(before, h, m, now - rule.window as real);
      n := m;
      while entries != [] && entries[0] <= now - rule.window as real
        invariant n <= |h| && Suffix(entries, h, n, now - rule.window as real)
        decreases |entries|
      {
        assert entries[1..] == h[n + 1..];
        entries, n := entries[1..], n + 1;
      }
      DequeCounts(entries, h, n, now, rule);
    }

    static method Decide(before: seq<real>, rule: Rule, now: real, ghost h: seq<real>)
      returns (entries: seq<real>, answer: Answer)
      requires KeyOk(before, h, now, rule)
      ensures KeyOk(entries, Extended(h, answer, now), now, rule) && Decision(answer, h, rule, now)
      ensures answer.RetryAfter? ==> 1 <= answer.seconds <= Max(1, rule.window)
    {
      ghost var n;
      entries, n := Prune(before, rule, now, h);
      if |entries| >= rule.limit {
        assert rule.limit >= 1 ==> WindowHolds(h, rule, now);
        answer := if entries == [] then IndexError else RetryAfter(Wait(entries[0], now, rule));
        if entries != [] { WaitIsLeft(entries[0], now, rule); }
        if answer.RetryAfter? { RefusalBounds(answer, h, rule, now); }
      } else {
        AcceptedKeyOk(entries, h, n, now, rule);
        entries := entries + [now];
        answer := Allowed;
      }
    }

    /**
     The decision is the one that counting over the whole history gives: allowed exactly when the window that ends now
     has room. A refusal waits for the oldest call in the window.
     */
    method Allow(key: string, rule: Rule, now: real) returns (answer: Answer)
      requires Valid() && clock <= now && (key in rules ==> rules[key] == rule)
      modifies this
      ensures Valid() && clock == now && rules == old(rules)[key := rule]
      ensures history == old(history)[key := Extended(Accepted(old(history), key), answer, now)]
      ensures Decision(answer, Accepted(old(history), key), rule, now)
      ensures answer.RetryAfter? ==> 1 <= answer.seconds <= Max(1, rule.window)
    {
      KnownKeyOk(events, history, rules, clock, key, rule, now);
      var before := Accepted(events, key);
      ghost var h := Accepted(history, key);
      var entries;
      entries, answer := Decide(before, rule, now, h);
      OneKeyMoves(events, history, rules, clock, key, entries, Extended(h, answer, now), rule, now);
      events, history, rules, clock :=
        events[key := entries], history[key := Extended(h, answer, now)], rules[key := rule], now;
    }
  }
}
