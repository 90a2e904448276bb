/**
 * The API rate limiter: one counter per (category, 60-second window, organisation), incremented
 * atomically in Redis with a time-to-live set by the first increment.
 */
module RateLimiting {
  import opened Prelude

  /** Unix time in seconds. */
  type Time = t: real | t >= 0.0

  const WINDOW := 60
  const TTL := 70.0

  function Floor(t: Time): nat { t.Floor }

  function WindowStart(now: Time): nat { Floor(now) / WINDOW * WINDOW }

  /** The three parts of the counter's name. */
  datatype Key = Key(category: string, window: nat, org: string)

  function Digits(n: nat): string {
    if n < 10 then [DIGITS[n]] else Digits(n / 10) + [DIGITS[n % 10]]
  }

  const DIGITS := "0123456789"

  /** The name of a counter. */
  function KeyText(k: Key): string { "rl:" + k.category + ":" + Digits(k.window) + ":" + k.org }

  lemma {:induction false} DigitsOnly(n: nat)
    ensures Digits(n) != [] && forall i :: 0 <= i < |Digits(n)| ==> '0' <= Digits(n)[i] <= '9'
  {
    if n >= 10 { DigitsOnly(n / 10); }
  }

  lemma {:induction false} DigitsInjective(m: nat, n: nat)
    requires Digits(m) == Digits(n)
    ensures m == n
  {
    var s, t := Digits(m), Digits(n);
    assert DIGITS[m % 10] == s[|s| - 1] == DIGITS[n % 10];
    SameDigit(m % 10, n % 10);
    if m >= 10 { DigitsOnly(m / 10); }
    if n >= 10 { DigitsOnly(n / 10); }
    if m >= 10 && n >= 10 {
      assert Digits(m / 10) == s[..|s| - 1] && Digits(n / 10) == t[..|t| - 1];
      DigitsInjective(m / 10, n / 10);
    }
  }

  lemma SameDigit(a: nat, b: nat)
    requires a < 10 && b < 10 && DIGITS[a] == DIGITS[b]
    ensures a == b
  {}

  /** Distinct counters have distinct names, whatever the organisation is called; categories have no colon. */
  lemma KeyTextInjective(k: Key, l: Key)
    requires ':' !in k.category && ':' !in l.category && KeyText(k) == KeyText(l)
    ensures k == l
  {
    var x, y := Digits(k.window) + ":" + k.org, Digits(l.window) + ":" + l.org;
    var s, t := k.category + ":" + x, l.category + ":" + y;
    assert KeyText(k) == "rl:" + s && KeyText(l) == "rl:" + t;
    assert s == KeyText(k)[3..] && t == KeyText(l)[3..];
    FirstField(':', k.category, x, l.category, y);
    DigitsOnly(k.window);
    DigitsOnly(l.window);
    FirstField(':', Digits(k.window), k.org, Digits(l.window), l.org);
    DigitsInjective(k.window, l.window);
  }

  datatype Counter = Counter(count: nat, expires: real)

  type Redis = map<Key, Counter>

  datatype Call = Call(org: string, category: string, at: Time)

  datatype Verdict = Allowed(remaining: int, reset: int) | Exceeded(retryAfter: int, current: int)

  function KeyOf(c: Call): Key { Key(c.category, WindowStart(c.at), c.org) }

  /** An expired counter is gone: the increment starts again at one with a new time-to-live. */
  function Incr(r: Redis, key: Key, now: Time): Redis {
    if key in r && now < r[key].expires then r[key := Counter(r[key].count + 1, r[key].expires)]
    else r[key := Counter(1, now + TTL)]
  }

  function Run(trace: seq<Call>): Redis {
    if trace == [] then map[]
    else Incr(Run(trace[..|trace| - 1]), KeyOf(trace[|trace| - 1]), trace[|trace| - 1].at)
  }

  /** The counter value the last call of a trace gets back. */
  function Current(trace: seq<Call>): nat
    requires trace != []
  {
    Run(trace)[KeyOf(trace[|trace| - 1])].count
  }

  /** The last call of the trace is let through. */
  predicate Admits(trace: seq<Call>, limit: (string, string) -> int)
    requires trace != []
  {
    var c := trace[|trace| - 1];
    Current(trace) <= limit(c.org, c.category)
  }

  /** Calls of one organisation and category that fall in one aligned window. */
  function CallsIn(trace: seq<Call>, key: Key): nat {
    if trace == [] then 0
    else CallsIn(trace[..|trace| - 1], key) + if KeyOf(trace[|trace| - 1]) == key then 1 else 0
  }

  /** How many of them were let through. */
  function AdmittedIn(trace: seq<Call>, limit: (string, string) -> int, key: Key): nat {
    if trace == [] then 0
    else AdmittedIn(trace[..|trace| - 1], limit, key)
         + if KeyOf(trace[|trace| - 1]) == key && Admits(trace, limit) then 1 else 0
  }

  predicate Within(c: Call, org: string, category: string, from: Time) {
    c.org == org && c.category == category && from <= c.at < from + 60.0
  }

  /** Calls of one organisation and category let through in the 60 seconds from any instant. */
  function AdmittedFrom(trace: seq<Call>, limit: (string, string) -> int, org: string, category: string, from: Time)
    : nat
  {
    if trace == [] then 0
    else AdmittedFrom(trace[..|trace| - 1], limit, org, category, from)
         + if Within(trace[|trace| - 1], org, category, from) && Admits(trace, limit) then 1 else 0
  }

  // ------------------------------------------------------------------ proofs

  lemma WindowBounds(t: Time)
    ensures WindowStart(t) as real <= t < (WindowStart(t) + WINDOW) as real
    ensures WindowStart(t) % WINDOW == 0
  {
    var n := Floor(t);
    assert n as real <= t < (n + 1) as real;
    assert n / WINDOW * WINDOW <= n < n / WINDOW * WINDOW + WINDOW;
  }

  /** A counter outlives its own window, so it holds the number of calls that fell in it. */
  ghost predicate Faithful(trace: seq<Call>, r: Redis) {
    && (forall k :: k in r ==> r[k].count == CallsIn(trace, k) && r[k].expires > (k.window + WINDOW) as real)
    && (forall k :: CallsIn(trace, k) > 0 ==> k in r)
  }

  lemma {:induction false} CountersAreFaithful(trace: seq<Call>)
    ensures Faithful(trace, Run(trace))
  {
    if trace == [] {
    } else {
      var c := trace[|trace| - 1];
      CountersAreFaithful(trace[..|trace| - 1]);
      WindowBounds(c.at);
      forall k ensures CallsIn(trace, k) == CallsIn(trace[..|trace| - 1], k) + if KeyOf(c) == k then 1 else 0 {}
    }
  }

  lemma CurrentIsCount(trace: seq<Call>)
    requires trace != []
    ensures Current(trace) == CallsIn(trace, KeyOf(trace[|trace| - 1]))
  {
    CountersAreFaithful(trace);
  }

  /** Each aligned window with c calls admits exactly min(c, limit) of them. */
  lemma {:induction false} WindowAdmitsExactly(trace: seq<Call>, limit: (string, string) -> int, key: Key)
    ensures AdmittedIn(trace, limit, key) == Min(CallsIn(trace, key), Max(0, limit(key.org, key.category)))
  {
    if trace == [] {
    } else {
      WindowAdmitsExactly(trace[..|trace| - 1], limit, key);
      CurrentIsCount(trace);
    }
  }

  /** 60 seconds from any instant touch at most two aligned windows. */
  lemma TwoWindows(from: Time, at: Time)
    requires from <= at < from + WINDOW as real
    ensures WindowStart(at) == WindowStart(from) || WindowStart(at) == WindowStart(from) + WINDOW
  {
    WindowBounds(from);
    WindowBounds(at);
    MultiplesApart(WindowStart(from), WindowStart(at));
  }

  lemma MultiplesApart(a: nat, b: nat)
    requires a % WINDOW == 0 && b % WINDOW == 0 && a < b + WINDOW && b < a + 2 * WINDOW
    ensures b == a || b == a + WINDOW
  {
    assert a == a / WINDOW * WINDOW && b == b / WINDOW * WINDOW;
  }

  lemma {:induction false} SlidingSplits(trace: seq<Call>, limit: (string, string) -> int, org: string, category: string,
                                         from: Time)
    ensures var w := WindowStart(from);
            AdmittedFrom(trace, limit, org, category, from) <=
            AdmittedIn(trace, limit, Key(category, w, org)) + AdmittedIn(trace, limit, Key(category, w + WINDOW, org))
  {
    if trace == [] {
    } else {
      var c := trace[|trace| - 1];
      SlidingSplits(trace[..|trace| - 1], limit, org, category, from);
      if Within(c, org, category, from) {
        TwoWindows(from, c.at);
      }
    }
  }

  /** Any 60-second interval, aligned or not, admits at most twice the limit. */
  lemma SlidingBound(trace: seq<Call>, limit: (string, string) -> int, org: string, category: string, from: Time)
    ensures AdmittedFrom(trace, limit, org, category, from) <= 2 * Max(0, limit(org, category))
  {
    var w := WindowStart(from);
    SlidingSplits(trace, limit, org, category, from);
    WindowAdmitsExactly(trace, limit, Key(category, w, org));
    WindowAdmitsExactly(trace, limit, Key(category, w + WINDOW, org));
  }

  /** Twice the limit does get through when one window's last second and the next one's first are both full. */
  lemma SlidingBoundIsTight(trace: seq<Call>, limit: (string, string) -> int, org: string, category: string,
                            from: Time)
    requires forall i :: 0 <= i < |trace| ==> Within(trace[i], org, category, from)
    requires var w, l := WindowStart(from), limit(org, category);
             0 <= l <= CallsIn(trace, Key(category, w, org)) && l <= CallsIn(trace, Key(category, w + WINDOW, org))
    ensures AdmittedFrom(trace, limit, org, category, from) == 2 * limit(org, category)
  {
    var w := WindowStart(from);
    AllWithin(trace, limit, org, category, from);
    WindowAdmitsExactly(trace, limit, Key(category, w, org));
    WindowAdmitsExactly(trace, limit, Key(category, w + WINDOW, org));
  }

  lemma {:induction false} AllWithin(trace: seq<Call>, limit: (string, string) -> int, org: string, category: string,
                                     from: Time)
    requires forall i :: 0 <= i < |trace| ==> Within(trace[i], org, category, from)
    ensures var w := WindowStart(from);
            AdmittedFrom(trace, limit, org, category, from) ==
            AdmittedIn(trace, limit, Key(category, w, org)) + AdmittedIn(trace, limit, Key(category, w + WINDOW, org))
  {
    if trace == [] {
    } else {
      AllWithin(trace[..|trace| - 1], limit, org, category, from);
      TwoWindows(from, trace[|trace| - 1].at);
    }
  }

  /** Waiting so many seconds leaves the refused call's window, and, if more than one, a second less would not. */
  ghost predicate SoonestRetry(at: Time, later: Time, seconds: int) {
    && Floor(later) + seconds >= WindowStart(at) + WINDOW
    && (seconds > 1 ==> Floor(later) + seconds - 1 < WindowStart(at) + WINDOW)
  }

  class RateLimiter {
    const limit: (string, string) -> int
    var redis: Redis
    ghost var trace: seq<Call>

    ghost predicate Valid()
      reads this
    {
      redis == Run(trace)
    }

    constructor (limit: (string, string) -> int)
      ensures Valid() && trace == [] && this.limit == limit
    {
      this.limit, redis, trace := limit, map[], [];
    }

    /** `later` is the second clock reading, taken only for a refused call. */
    method Check(c: Call, later: Time) returns (v: Verdict)
      requires Valid() && c.at <= later
      modifies this
      ensures Valid() && trace == old(trace) + [c]
      ensures v.Allowed? <==> Admits(trace, limit)
      ensures v.Allowed? ==> v.remaining == limit(c.org, c.category) - CallsIn(trace, KeyOf(c)) >= 0
                             && v.reset == WindowStart(c.at) + WINDOW
      ensures v.Exceeded? ==> v.current == CallsIn(trace, KeyOf(c)) > limit(c.org, c.category)
      ensures v.Exceeded? ==> 1 <= v.retryAfter <= 60 && SoonestRetry(c.at, later, v.retryAfter)
    {
      var key := KeyOf(c);
      redis := Incr(redis, key, c.at);
      trace := trace + [c];
      assert trace[..|trace| - 1] == old(trace);
      CurrentIsCount(trace);
      var current, rpm := redis[key].count, limit(c.org, c.category);
      if current > rpm {
        WindowBounds(c.at);
        var retryAfter := WindowStart(c.at) + WINDOW - Floor(later);
        return Exceeded(Max(1, retryAfter), current);
      }
      return Allowed(Max(0, rpm - current), WindowStart(c.at) + WINDOW);
    }
  }
}
