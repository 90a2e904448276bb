/**
 * The embedding rate limiter: a blocking acquire loop over a counter shared by all workers, inside a
 * semaphore.
 *
 * Other workers, the counter and the passage of time between any two statements are arbitrary; the
 * wall clock and the monotonic clock run at the same rate.
 */
module EmbeddingLimiting {
  import opened Prelude

  const WINDOW := 60

  /** Time passes by an arbitrary amount whenever a clock is read, and at least as asked when sleeping. */
  class Clock {
    var now: real
    const offset: real

    constructor (now: real, offset: real)
      ensures this.now == now && this.offset == offset
    {
      this.now, this.offset := now, offset;
    }

    method Monotonic() returns (t: real)
      modifies this
      ensures t == now >= old(now)
    {
      Sleep(0.0);
      t := now;
    }

    /** `int(time.time())`. */
    method WallSeconds() returns (s: int)
      modifies this
      ensures now >= old(now) && s == (now + offset).Floor
    {
      Sleep(0.0);
      s := (now + offset).Floor;
    }

    method Sleep(d: real)
      modifies this
      ensures now >= old(now) + d
    {
      var extra: real := *;
      now := now + d + if extra > 0.0 then extra else 0.0;
    }
  }

  /** The aligned window a moment falls in. */
  function WindowOf(now: real, offset: real): int { (now + offset).Floor / WINDOW }

  lemma WindowMonotone(s: real, t: real, offset: real)
    requires s <= t
    ensures WindowOf(s, offset) <= WindowOf(t, offset)
  {
    assert (s + offset).Floor <= (t + offset).Floor;
    DivMonotone((s + offset).Floor, (t + offset).Floor);
  }

  lemma DivMonotone(a: int, b: int)
    requires a <= b
    ensures a / WINDOW <= b / WINDOW
  {}

  /** Within `timeout` seconds at most timeout/60 + 1 new windows begin. */
  lemma WindowsWithin(start: real, now: real, timeout: real, offset: real)
    requires 0.0 <= timeout && now < start + timeout
    ensures WindowOf(now, offset) <= WindowOf(start, offset) + timeout.Floor / WINDOW + 1
  {
    FloorSum(start + offset, timeout, now + offset);
    DivSum((start + offset).Floor, (now + offset).Floor, timeout.Floor);
  }

  lemma FloorSum(x: real, t: real, y: real)
    requires y < x + t
    ensures y.Floor <= x.Floor + t.Floor + 1
  {}

  lemma DivSum(a: int, b: int, d: int)
    requires 0 <= d && b <= a + d + 1
    ensures b / WINDOW <= a / WINDOW + d / WINDOW + 1
  {
    assert a == a / WINDOW * WINDOW + a % WINDOW && d == d / WINDOW * WINDOW + d % WINDOW;
  }

  /** What INCR answers: an error, or a count; a zero count stands for an open circuit. */
  type Answer = Option<nat>

  function Grants(a: Answer, rpm: int): bool {
    a.None? || a.value == 0 || a.value <= rpm
  }

  /** One increment of a window's counter by some worker: counted, lost to an error, or not made for an open circuit. */
  datatype Try = Counted(window: int) | Errored(window: int) | CircuitOpen(window: int)

  function CountIn(tries: seq<Try>, window: int): nat {
    if tries == [] then 0
    else CountIn(tries[..|tries| - 1], window) + if tries[|tries| - 1] == Counted(window) then 1 else 0
  }

  /** What the last of the tries is answered. */
  function AnswerTo(tries: seq<Try>): Answer
    requires tries != []
  {
    match tries[|tries| - 1]
    case Counted(window) => Some(CountIn(tries, window))
    case Errored(_) => None
    case CircuitOpen(_) => Some(0)
  }

  /** How many tries of the window were granted, and how many of them without being counted. */
  function GrantedIn(tries: seq<Try>, rpm: int, window: int): nat {
    if tries == [] then 0
    else GrantedIn(tries[..|tries| - 1], rpm, window)
         + if tries[|tries| - 1].window == window && Grants(AnswerTo(tries), rpm) then 1 else 0
  }

  function UncountedIn(tries: seq<Try>, window: int): nat {
    if tries == [] then 0
    else UncountedIn(tries[..|tries| - 1], window)
         + if tries[|tries| - 1] == Errored(window) || tries[|tries| - 1] == CircuitOpen(window) then 1 else 0
  }

  /**
   * Over any tries of all workers, a window with c counted ones grants exactly min(c, rpm) of them, and
   * every try that could not be counted.
   */
  lemma {:induction false} GrantsPerWindow(tries: seq<Try>, rpm: int, window: int)
    ensures GrantedIn(tries, rpm, window) ==
            UncountedIn(tries, window) + Min(CountIn(tries, window), Max(0, rpm))
  {
    if tries == [] {
    } else {
      GrantsPerWindow(tries[..|tries| - 1], rpm, window);
    }
  }

  /**
   * The windows a call asked for and what it was answered: every answer but the last refuses, each round asks
   * a later window than the one before, and only the last may repeat a window.
   */
  ghost predicate Rounds(asked: seq<(int, Answer)>, rpm: int, granted: bool) {
    && asked != [] && Refusals(asked[..|asked| - 1], rpm)
    && granted == Grants(asked[|asked| - 1].1, rpm)
    && forall i :: 0 <= i < |asked| - 1 ==> asked[i].0 <= asked[|asked| - 1].0
  }

  ghost predicate Refusals(asked: seq<(int, Answer)>, rpm: int) {
    && (forall i :: 0 <= i < |asked| ==> !Grants(asked[i].1, rpm))
    && forall i, j :: 0 <= i < j < |asked| ==> asked[i].0 < asked[j].0
  }

  /** Each window asked for was the current one at some moment of the call. */
  ghost predicate Between(asked: seq<(int, Answer)>, first: int, last: int) {
    forall i :: 0 <= i < |asked| ==> first <= asked[i].0 <= last
  }

  ghost predicate Before(asked: seq<(int, Answer)>, window: int) {
    forall i :: 0 <= i < |asked| ==> asked[i].0 < window
  }

  /** The most rounds `acquire` can take. */
  function MaxRounds(timeout: real): nat {
    if timeout < 0.0 then 1 else timeout.Floor / WINDOW + 3
  }

  class EmbeddingRateLimiter {
    const clock: Clock
    const rpm: int
    ghost var asked: seq<(int, Answer)>   // every window asked for, with the answer

    constructor (clock: Clock, rpm: int)
      ensures this.clock == clock && this.rpm == rpm && asked == []
    {
      this.clock, this.rpm, asked := clock, rpm, [];
    }

    /** The shared counter: other workers increment it too, and it may fail. */
    method Incr(window: int) returns (a: Answer)
      modifies clock, this`asked
      ensures clock.now >= old(clock.now) && asked == old(asked) + [(window, a)]
    {
      clock.Sleep(0.0);
      var failed: bool, count: nat := *, *;
      a := if failed then None else Some(count);
      asked := asked + [(window, a)];
    }

    /** One round's question: the window is read off the wall clock, then its counter is incremented. */
    method Ask() returns (window: int, a: Answer)
      modifies clock, this`asked
      ensures clock.now >= old(clock.now) && asked == old(asked) + [(window, a)]
      ensures WindowOf(old(clock.now), clock.offset) <= window <= WindowOf(clock.now, clock.offset)
    {
      var seconds := clock.WallSeconds();
      window := seconds / WINDOW;
      WindowMonotone(old(clock.now), clock.now, clock.offset);
      ghost var read := clock.now;
      a := Incr(window);
      WindowMonotone(read, clock.now, clock.offset);
    }

    /** Sleeps until just past the end of the window, or until the deadline if that comes first. */
    method Wait(window: int, now: real, deadline: real)
      modifies clock
      ensures clock.now >= old(clock.now)
      ensures clock.now < deadline && now <= old(clock.now) ==> WindowOf(clock.now, clock.offset) >= window + 1
    {
      var seconds := clock.WallSeconds();
      ghost var before := clock.now;
      var untilNext := (window * WINDOW + WINDOW - seconds) as real + 0.1;
      var sleepTime := if untilNext <= deadline - now then untilNext else deadline - now;
      if sleepTime > 0.0 {
        clock.Sleep(sleepTime);
      }
      if clock.now < deadline && now <= old(clock.now) {
        NextWindow(window, before, clock.now, clock.offset);
      }
    }

    /**
     * Always returns: granted on the first answer that allows it, refused only once the deadline has
     * passed, and after at most floor(timeout/60) + 3 rounds.
     */
    method Acquire(timeout: real) returns (granted: bool, rounds: nat)
      modifies clock, this`asked
      ensures old(asked) <= asked && rounds == |asked| - |old(asked)|
      ensures Rounds(asked[|old(asked)|..], rpm, granted)
      ensures Between(asked[|old(asked)|..], WindowOf(old(clock.now), clock.offset), WindowOf(clock.now, clock.offset))
      ensures !granted ==> clock.now >= old(clock.now) + timeout
      ensures 1 <= rounds <= MaxRounds(timeout)
    {
      var now := clock.Monotonic();
      var deadline := now + timeout;
      ghost var start, first := now, WindowOf(old(clock.now), clock.offset);
      ghost var mine: seq<(int, Answer)> := [];
      WindowMonotone(old(clock.now), clock.now, clock.offset);
      rounds := 0;
      while true
        invariant asked == old(asked) + mine && rounds == |mine|
        invariant Progress(mine, rpm, first, WindowOf(clock.now, clock.offset), clock.now < deadline)
        invariant clock.now >= start >= old(clock.now) && deadline == start + timeout
        invariant rounds < MaxRounds(timeout)
        invariant clock.now < deadline ==> rounds <= WindowOf(clock.now, clock.offset) - WindowOf(start, clock.offset)
        decreases MaxRounds(timeout) - rounds
      {
        ghost var head, before := clock.now, mine;
        var window, answer := Ask();
        mine := mine + [(window, answer)];
        assert asked[|old(asked)|..] == mine;
        rounds := rounds + 1;
        RoundsNext(before, rpm, first, WindowOf(head, clock.offset), head < deadline, window, answer,
                   WindowOf(clock.now, clock.offset));
        ghost var asking := clock.now;
        if answer.None? || answer.value == 0 || answer.value <= rpm {
          return true, rounds;
        }
        now := clock.Monotonic();
        WindowMonotone(asking, clock.now, clock.offset);
        if now >= deadline {
          return false, rounds;
        }
        WindowsWithin(start, head, timeout, clock.offset);
        asking := clock.now;
        Wait(window, now, deadline);
        WindowMonotone(asking, clock.now, clock.offset);
      }
    }
  }

  /** All answers so far refused; before the deadline the current window is one not asked for yet. */
  ghost predicate Progress(asked: seq<(int, Answer)>, rpm: int, first: int, current: int, early: bool) {
    Refusals(asked, rpm) && Between(asked, first, current) && (early ==> Before(asked, current)) && first <= current
  }

  lemma RoundsNext(asked: seq<(int, Answer)>, rpm: int, first: int, head: int, early: bool, window: int, a: Answer,
                   current: int)
    requires Progress(asked, rpm, first, head, early) && head <= window <= current
    ensures var more := asked + [(window, a)];
            && Rounds(more, rpm, Grants(a, rpm)) && Between(more, first, current)
            && (early && !Grants(a, rpm) ==> Refusals(more, rpm))
            && forall next :: current <= next && window < next ==>
                 Between(more, first, next) && (early ==> Before(more, next))
  {
    var more := asked + [(window, a)];
    assert more[..|more| - 1] == asked;
  }

  /** Sleeping until just past the end of a window leaves it. */
  lemma NextWindow(window: int, before: real, after: real, offset: real)
    requires before <= after
    requires after >= before + (window * WINDOW + WINDOW - (before + offset).Floor) as real + 0.1
    ensures WindowOf(after, offset) >= window + 1
  {
    assert (after + offset) >= (window * WINDOW + WINDOW) as real;
    assert (after + offset).Floor >= (window + 1) * WINDOW;
    DivMonotone((window + 1) * WINDOW, (after + offset).Floor);
  }

  // --------------------------------------------------------------- semaphore

  /** Permits free, users inside `acquire`, users past it, and permits no one will give back. */
  datatype Permits = Permits(free: int, acquiring: nat, holding: nat, leaked: nat)

  /** A cancellation inside `acquire` is not an Exception, so the permit is not released. */
  datatype Event = Enter | Granted | Refused | Cancelled | Exit

  predicate Enabled(p: Permits, e: Event) {
    match e
    case Enter => p.free > 0
    case Granted | Refused | Cancelled => p.acquiring > 0
    case Exit => p.holding > 0
  }

  function Step(p: Permits, e: Event): Permits {
    if !Enabled(p, e) then p
    else match e
         case Enter => p.(free := p.free - 1, acquiring := p.acquiring + 1)
         case Granted => p.(acquiring := p.acquiring - 1, holding := p.holding + 1)
         case Refused => p.(acquiring := p.acquiring - 1, free := p.free + 1)
         case Cancelled => p.(acquiring := p.acquiring - 1, leaked := p.leaked + 1)
         case Exit => p.(holding := p.holding - 1, free := p.free + 1)
  }

  function Run(max: nat, events: seq<Event>): Permits {
    if events == [] then Permits(max, 0, 0, 0) else Step(Run(max, events[..|events| - 1]), events[|events| - 1])
  }

  /** Event `i` of the run cancels a user that was inside `acquire`. */
  predicate CancelsAt(max: nat, events: seq<Event>, i: nat)
    requires i < |events|
  {
    events[i] == Cancelled && Enabled(Run(max, events[..i]), Cancelled)
  }

  /** Free permits plus users inside equal the maximum exactly when nobody was cancelled in `acquire`. */
  lemma {:induction false} PermitsConserved(max: nat, events: seq<Event>)
    ensures var p := Run(max, events);
            && 0 <= p.free && p.free + p.acquiring + p.holding + p.leaked == max
            && (p.free + p.acquiring + p.holding == max <==>
                forall i :: 0 <= i < |events| ==> !CancelsAt(max, events, i))
  {
    if events == [] {
    } else {
      var n := |events| - 1;
      PermitsConserved(max, events[..n]);
      assert forall i :: 0 <= i < n ==> events[..n][..i] == events[..i];
      assert forall i :: 0 <= i < n ==> (CancelsAt(max, events, i) <==> CancelsAt(max, events[..n], i));
      assert CancelsAt(max, events, n) <==> events[n] == Cancelled && Enabled(Run(max, events[..n]), Cancelled);
    }
  }

  /** How often an event has taken place. */
  function Happened(max: nat, events: seq<Event>, e: Event): nat {
    if events == [] then 0
    else
      var init, last := events[..|events| - 1], events[|events| - 1];
      Happened(max, init, e) + if last == e && Enabled(Run(max, init), e) then 1 else 0
  }

  /** Users are inside from their grant to their exit, and a permit is out from its user's entry to refusal or exit. */
  lemma {:induction false} UsersAccounted(max: nat, events: seq<Event>)
    ensures var p := Run(max, events);
            && p.holding == Happened(max, events, Granted) - Happened(max, events, Exit)
            && p.acquiring == Happened(max, events, Enter) - Happened(max, events, Granted)
                              - Happened(max, events, Refused) - Happened(max, events, Cancelled)
            && p.free == max - Happened(max, events, Enter) + Happened(max, events, Refused)
                         + Happened(max, events, Exit)
            && p.leaked == Happened(max, events, Cancelled) && 0 <= p.free && p.acquiring + p.holding <= max
  {
    if events == [] {
    } else {
      UsersAccounted(max, events[..|events| - 1]);
    }
  }

  /** One user after another is cancelled inside `acquire`. */
  function Leaks(n: nat): seq<Event> { if n == 0 then [] else Leaks(n - 1) + [Enter] + [Cancelled] }

  lemma RunAppend(max: nat, events: seq<Event>, e: Event)
    ensures Run(max, events + [e]) == Step(Run(max, events), e)
  {
    assert (events + [e])[..|events|] == events;
  }

  lemma {:induction false} EachCancelLeaks(max: nat, n: nat)
    requires n <= max
    ensures Run(max, Leaks(n)) == Permits(max - n, 0, 0, n)
  {
    if n == 0 {
    } else {
      EachCancelLeaks(max, n - 1);
      RunAppend(max, Leaks(n - 1), Enter);
      RunAppend(max, Leaks(n - 1) + [Enter], Cancelled);
    }
  }

  /** After as many such cancellations as there are permits, nobody gets in again, whatever happens. */
  lemma {:induction false} LeakedOutForever(max: nat, events: seq<Event>)
    ensures Run(max, Leaks(max) + events) == Permits(0, 0, 0, max)
  {
    if events == [] {
      EachCancelLeaks(max, max);
      assert Leaks(max) + events == Leaks(max);
    } else {
      var init, last := events[..|events| - 1], events[|events| - 1];
      LeakedOutForever(max, init);
      RunAppend(max, Leaks(max) + init, last);
      assert Leaks(max) + events == Leaks(max) + init + [last];
    }
  }
}
