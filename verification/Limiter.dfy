/** The in-memory fixed-window rate limiter (internal/platform/ratelimit).

    Times and durations are integers. The specification works on windows as
    values; the class at the end mutates bucket objects the way the source does. */
module Limiter {
  import Totals

  /** One key's current fixed window. */
  datatype Window = Window(start: int, count: int)

  datatype State = State(buckets: map<string, Window>, lastGC: int)

  datatype Call = Call(key: string, now: int)

  datatype Answer = Answer(allowed: bool, retryAfter: int)

  datatype Limit = Limit(requests: int, window: int)

  // ----- one call -----

  predicate Expired(w: Window, now: int, l: Limit) {
    now - w.start >= l.window
  }

  function Collected(s: State, now: int, l: Limit): State {
    if now - s.lastGC < l.window then s
    else State(map k | k in s.buckets && !Expired(s.buckets[k], now, l) :: s.buckets[k], now)
  }

  /** The window a call is counted in: the stored one, or a new one starting now. */
  function Current(s: State, c: Call, l: Limit): Window {
    if c.key in s.buckets && !Expired(s.buckets[c.key], c.now, l) then s.buckets[c.key]
    else Window(c.now, 0)
  }

  function Counted(s: State, c: Call, l: Limit): State {
    var w := Current(s, c, l);
    State(s.buckets[c.key := if w.count >= l.requests then w else Window(w.start, w.count + 1)], s.lastGC)
  }

  function AnswerTo(s: State, c: Call, l: Limit): Answer {
    var w := Current(s, c, l);
    if w.count >= l.requests then Answer(false, w.start + l.window - c.now) else Answer(true, 0)
  }

  // ----- traces of calls, with and without the collector -----

  predicate Nondecreasing(trace: seq<Call>) {
    forall i, j :: 0 <= i < j < |trace| ==> trace[i].now <= trace[j].now
  }

  function After(trace: seq<Call>, born: int, l: Limit, collect: bool): State
    decreases |trace|, 1
  {
    if trace == [] then State(map[], born) else
      var c := trace[|trace| - 1];
      Counted(Prepared(trace, born, l, collect), c, l)
  }

  /** The state in which the last call is counted. */
  function Prepared(trace: seq<Call>, born: int, l: Limit, collect: bool): State
    requires trace != []
    decreases |trace|, 0
  {
    var s := After(trace[..|trace| - 1], born, l, collect);
    if collect then Collected(s, trace[|trace| - 1].now, l) else s
  }

  function LastAnswer(trace: seq<Call>, born: int, l: Limit, collect: bool): Answer
    requires trace != []
  {
    AnswerTo(Prepared(trace, born, l, collect), trace[|trace| - 1], l)
  }

  function Answers(trace: seq<Call>, born: int, l: Limit, collect: bool): (r: seq<Answer>)
    ensures |r| == |trace|
  {
    if trace == [] then []
    else Answers(trace[..|trace| - 1], born, l, collect) + [LastAnswer(trace, born, l, collect)]
  }

  // ----- the collector does not change answers -----

  /** The windows still open at `now` are the same on both sides. */
  ghost predicate SameOpen(a: State, b: State, now: int, l: Limit) {
    forall k, t :: t >= now ==> Current(a, Call(k, t), l) == Current(b, Call(k, t), l)
  }

  lemma {:induction false} CollectorKeepsOpen(trace: seq<Call>, born: int, l: Limit, now: int)
    requires l.window > 0 && Nondecreasing(trace)
    requires forall i :: 0 <= i < |trace| ==> trace[i].now <= now
    ensures SameOpen(After(trace, born, l, true), After(trace, born, l, false), now, l)
    ensures trace != [] ==> SameOpen(Prepared(trace, born, l, true), Prepared(trace, born, l, false),
                                     trace[|trace| - 1].now, l)
    decreases |trace|
  {
    if trace != [] {
      var c := trace[|trace| - 1];
      CollectorKeepsOpen(trace[..|trace| - 1], born, l, c.now);
      assert Current(Prepared(trace, born, l, true), c, l) == Current(Prepared(trace, born, l, false), c, l);
    }
  }

  /** A limiter that collects answers every trace like one that never does. */
  lemma {:induction false} CollectorIsInvisible(trace: seq<Call>, born: int, l: Limit)
    requires l.window > 0 && Nondecreasing(trace)
    ensures Answers(trace, born, l, true) == Answers(trace, born, l, false)
    decreases |trace|
  {
    if trace != [] {
      var front := trace[..|trace| - 1];
      CollectorIsInvisible(front, born, l);
      CollectorKeepsOpen(trace, born, l, trace[|trace| - 1].now);
      assert Current(Prepared(trace, born, l, true), trace[|trace| - 1], l)
          == Current(Prepared(trace, born, l, false), trace[|trace| - 1], l);
    }
  }

  // ----- memory -----

  /** After a call at time t every stored bucket started within the last two
      windows, the collector ran within the last one, and only called keys are stored. */
  lemma {:induction false} BucketsAreRecent(trace: seq<Call>, born: int, l: Limit)
    requires l.window > 0 && Nondecreasing(trace) && trace != [] && born <= trace[0].now
    ensures var s := After(trace, born, l, true);
            var t := trace[|trace| - 1].now;
            && t - l.window < s.lastGC <= t
            && forall k :: k in s.buckets ==>
                 s.lastGC - l.window < s.buckets[k].start <= t && t - 2 * l.window + 2 <= s.buckets[k].start
    decreases |trace|
  {
    if |trace| > 1 {
      var front := trace[..|trace| - 1];
      BucketsAreRecent(front, born, l);
      assert front[|front| - 1].now <= trace[|trace| - 1].now;
    } else {
      assert After(trace[..0], born, l, true) == State(map[], born);
    }
  }

  /** The distinct keys called in the half-open interval (from, to]. */
  function KeysIn(trace: seq<Call>, from: int, to: int): set<string> {
    set i | 0 <= i < |trace| && from < trace[i].now <= to :: trace[i].key
  }

  lemma {:induction false} StoredWereCalled(trace: seq<Call>, born: int, l: Limit, key: string)
    requires key in After(trace, born, l, true).buckets
    ensures Call(key, After(trace, born, l, true).buckets[key].start) in trace
    decreases |trace|
  {
    var front, last := trace[..|trace| - 1], trace[|trace| - 1];
    assert trace == front + [last];
    var before, stored := After(front, born, l, true), After(trace, born, l, true).buckets[key];
    if key in before.buckets && before.buckets[key].start == stored.start {
      StoredWereCalled(front, born, l, key);
    } else {
      assert last == Call(key, stored.start);
    }
  }

  /** The stored keys are among those called in the last two windows. */
  lemma StoredKeysAreRecent(trace: seq<Call>, born: int, l: Limit)
    requires l.window > 0 && Nondecreasing(trace) && trace != [] && born <= trace[0].now
    ensures var s, t := After(trace, born, l, true), trace[|trace| - 1].now;
            && s.buckets.Keys <= KeysIn(trace, s.lastGC - l.window, t)
            && s.buckets.Keys <= KeysIn(trace, t - 2 * l.window + 1, t)
  {
    BucketsAreRecent(trace, born, l);
    var s, t := After(trace, born, l, true), trace[|trace| - 1].now;
    forall k | k in s.buckets
      ensures k in KeysIn(trace, s.lastGC - l.window, t) && k in KeysIn(trace, t - 2 * l.window + 1, t)
    {
      StoredWereCalled(trace, born, l, k);
      var i :| 0 <= i < |trace| && trace[i] == Call(k, s.buckets[k].start);
    }
  }

  /** No more buckets than distinct keys seen in the last window. */
  predicate BoundedByLastWindow(trace: seq<Call>, born: int, l: Limit)
    requires trace != []
  {
    var t := trace[|trace| - 1].now;
    |After(trace, born, l, true).buckets| <= |KeysIn(trace, t - l.window, t)|
  }

  lemma AfterSnoc(trace: seq<Call>, born: int, l: Limit, c: Call)
    ensures After(trace + [c], born, l, true) == Counted(Collected(After(trace, born, l, true), c.now, l), c, l)
  {
    assert (trace + [c])[..|trace|] == trace;
  }

  /** The bound on the age of a bucket is reached, with a key that was not called
      in the last window. */
  lemma BucketsOutliveTheirWindow(born: int, l: Limit) returns (trace: seq<Call>)
    requires l.window >= 2
    ensures Nondecreasing(trace) && trace != [] && born <= trace[0].now
    ensures var t := trace[|trace| - 1].now;
            && After(trace, born, l, true).buckets.Keys == {"b", "c"}
            && After(trace, born, l, true).buckets["b"].start == t - 2 * l.window + 2
            && KeysIn(trace, t - l.window, t) == {"c"}
  {
    var first := born + l.window;
    var a, b, c, again := Call("a", first), Call("b", first + 1), Call("c", first + l.window),
      Call("c", first + 2 * l.window - 1);
    AfterSnoc([], born, l, a);
    AfterSnoc([] + [a], born, l, b);
    AfterSnoc([] + [a] + [b], born, l, c);
    AfterSnoc([] + [a] + [b] + [c], born, l, again);
    trace := [] + [a] + [b] + [c] + [again];
    assert After([] + [a] + [b], born, l, true).buckets.Keys == {"a", "b"};
    var t := again.now;
    assert trace[2].key in KeysIn(trace, t - l.window, t);
  }

  /** Memory is bounded by the keys of the last window in every trace exactly if the
      window is a single unit of time. */
  lemma MemoryBoundIff(born: int, l: Limit)
    requires l.window > 0
    ensures (forall trace: seq<Call> | Nondecreasing(trace) && trace != [] && born <= trace[0].now ::
               BoundedByLastWindow(trace, born, l))
            <==> l.window == 1
  {
    if l.window == 1 {
      forall trace: seq<Call> | Nondecreasing(trace) && trace != [] && born <= trace[0].now
        ensures BoundedByLastWindow(trace, born, l)
      {
        StoredKeysAreRecent(trace, born, l);
        var t := trace[|trace| - 1].now;
        Totals.SubsetSize(After(trace, born, l, true).buckets.Keys, KeysIn(trace, t - l.window, t));
      }
    } else {
      var trace := BucketsOutliveTheirWindow(born, l);
      assert |After(trace, born, l, true).buckets.Keys| == 2;
      assert !BoundedByLastWindow(trace, born, l);
    }
  }

  // ----- the sliding-window bound -----

  /** Allowed calls of a key in the half-open interval of one window from `a`. */
  function AllowedIn(trace: seq<Call>, answers: seq<Answer>, key: string, a: int, l: Limit): int
    requires |trace| == |answers|
    decreases |trace|
  {
    if trace == [] then 0 else
      var n := |trace| - 1;
      AllowedIn(trace[..n], answers[..n], key, a, l)
      + if trace[n].key == key && answers[n].allowed && a <= trace[n].now < a + l.window then 1 else 0
  }

  /** What the key's current window says about the calls counted so far. */
  predicate SlidingInvariant(s: State, key: string, a: int, n: int, t: int, l: Limit) {
    && (key !in s.buckets ==> n == 0)
    && (t < a ==> n == 0)
    && (key in s.buckets ==>
          var w := s.buckets[key];
          && 1 <= w.count <= l.requests && w.start <= t
          && n <= (if w.start < a then w.count - 1
                   else if w.start < a + l.window then l.requests - 1 + w.count
                   else 2 * l.requests - 1))
  }

  lemma {:induction false} SlidingStep(trace: seq<Call>, born: int, l: Limit, key: string, a: int)
    requires l.window > 0 && l.requests >= 1 && Nondecreasing(trace) && trace != []
    ensures SlidingInvariant(After(trace, born, l, false), key, a,
              AllowedIn(trace, Answers(trace, born, l, false), key, a, l), trace[|trace| - 1].now, l)
    decreases |trace|
  {
    var front := trace[..|trace| - 1];
    assert Answers(trace, born, l, false)[..|front|] == Answers(front, born, l, false);
    if front != [] {
      SlidingStep(front, born, l, key, a);
      assert front[|front| - 1].now <= trace[|trace| - 1].now;
    } else {
      assert After(front, born, l, false) == State(map[], born);
    }
  }

  /** No interval as long as the window holds more than 2R - 1 allowed calls. */
  lemma SlidingWindowBound(trace: seq<Call>, born: int, l: Limit, key: string, a: int)
    requires l.window > 0 && l.requests >= 1 && Nondecreasing(trace)
    ensures AllowedIn(trace, Answers(trace, born, l, true), key, a, l) <= 2 * l.requests - 1
  {
    CollectorIsInvisible(trace, born, l);
    if trace != [] {
      SlidingStep(trace, born, l, key, a);
    }
  }

  /** `n` calls of a key at one instant. */
  function Burst(key: string, now: int, n: nat): seq<Call> {
    if n == 0 then [] else Burst(key, now, n - 1) + [Call(key, now)]
  }

  lemma CallAllowed(trace: seq<Call>, born: int, l: Limit, c: Call, a: int)
    requires Current(After(trace, born, l, false), c, l).count < l.requests
    ensures var w := Current(After(trace, born, l, false), c, l);
            var all := trace + [c];
            && After(all, born, l, false) == Counted(After(trace, born, l, false), c, l)
            && AllowedIn(all, Answers(all, born, l, false), c.key, a, l)
               == AllowedIn(trace, Answers(trace, born, l, false), c.key, a, l)
                 + (if a <= c.now < a + l.window then 1 else 0)
  {
    var all := trace + [c];
    assert all[..|all| - 1] == trace;
    assert Answers(all, born, l, false)[..|trace|] == Answers(trace, born, l, false);
  }

  /** A burst that fits the key's open window is counted in it. */
  lemma {:induction false} BurstCounted(trace: seq<Call>, born: int, l: Limit, key: string, now: int, n: nat, w: Window)
    requires Current(After(trace, born, l, false), Call(key, now), l) == w
    requires w.start <= now < w.start + l.window && w.count + n <= l.requests
    ensures Current(After(trace + Burst(key, now, n), born, l, false), Call(key, now), l) ==
            Window(w.start, w.count + n)
    decreases n
  {
    if n == 0 {
      assert trace + Burst(key, now, 0) == trace;
    } else {
      BurstCounted(trace, born, l, key, now, n - 1, w);
      BurstSnoc(trace, key, now, n);
      CallCounted(trace + Burst(key, now, n - 1), born, l, Call(key, now));
    }
  }

  lemma BurstSnoc(trace: seq<Call>, key: string, now: int, n: nat)
    requires n > 0
    ensures trace + Burst(key, now, n) == trace + Burst(key, now, n - 1) + [Call(key, now)]
  {
  }

  lemma CallCounted(trace: seq<Call>, born: int, l: Limit, c: Call)
    requires var w := Current(After(trace, born, l, false), c, l);
             w.count < l.requests && w.start <= c.now < w.start + l.window
    ensures var w := Current(After(trace, born, l, false), c, l);
            Current(After(trace + [c], born, l, false), c, l) == Window(w.start, w.count + 1)
  {
    assert (trace + [c])[..|trace|] == trace;
  }

  /** It is allowed call by call. */
  lemma {:induction false} BurstAllowed(trace: seq<Call>, born: int, l: Limit, key: string, now: int, n: nat,
                                        w: Window, a: int)
    requires Current(After(trace, born, l, false), Call(key, now), l) == w
    requires w.start <= now < w.start + l.window && w.count + n <= l.requests
    ensures var all := trace + Burst(key, now, n);
            AllowedIn(all, Answers(all, born, l, false), key, a, l)
            == AllowedIn(trace, Answers(trace, born, l, false), key, a, l) + (if a <= now < a + l.window then n else 0)
    decreases n
  {
    if n == 0 {
      assert trace + Burst(key, now, 0) == trace;
    } else {
      BurstAllowed(trace, born, l, key, now, n - 1, w, a);
      BurstCounted(trace, born, l, key, now, n - 1, w);
      BurstSnoc(trace, key, now, n);
      CallAllowed(trace + Burst(key, now, n - 1), born, l, Call(key, now), a);
    }
  }

  lemma {:induction false} BurstTimes(key: string, now: int, n: nat)
    ensures |Burst(key, now, n)| == n
    ensures forall i :: 0 <= i < n ==> Burst(key, now, n)[i] == Call(key, now)
  {
    if n > 0 {
      BurstTimes(key, now, n - 1);
    }
  }

  /** The bound is met: one call, a full burst at the end of its window, and a full
      burst as soon as it closes. */
  lemma SlidingWindowBoundIsSharp(born: int, l: Limit, key: string) returns (trace: seq<Call>)
    requires l.window >= 2 && l.requests >= 1
    ensures Nondecreasing(trace)
    ensures AllowedIn(trace, Answers(trace, born, l, true), key, 1, l) == 2 * l.requests - 1
  {
    var two := Burst(key, 0, 1) + Burst(key, l.window - 1, l.requests - 1);
    trace := two + Burst(key, l.window, l.requests);
    FullWindow(born, l, key);
    BurstAllowed(two, born, l, key, l.window, l.requests, Window(l.window, 0), 1);
    ThreeBursts(key, l);
    CollectorIsInvisible(trace, born, l);
  }

  lemma ThreeBursts(key: string, l: Limit)
    requires l.window >= 2 && l.requests >= 1
    ensures Nondecreasing(Burst(key, 0, 1) + Burst(key, l.window - 1, l.requests - 1)
                          + Burst(key, l.window, l.requests))
  {
    BurstTimes(key, 0, 1);
    BurstTimes(key, l.window - 1, l.requests - 1);
    BurstTimes(key, l.window, l.requests);
  }

  /** One call at 0 and the rest of the budget just before the window closes. */
  lemma FullWindow(born: int, l: Limit, key: string)
    requires l.window >= 2 && l.requests >= 1
    ensures var two := Burst(key, 0, 1) + Burst(key, l.window - 1, l.requests - 1);
            && Current(After(two, born, l, false), Call(key, l.window), l) == Window(l.window, 0)
            && AllowedIn(two, Answers(two, born, l, false), key, 1, l) == l.requests - 1
  {
    var one := Burst(key, 0, 1);
    assert [] + one == one;
    BurstCounted([], born, l, key, 0, 1, Window(0, 0));
    BurstAllowed([], born, l, key, 0, 1, Window(0, 0), 1);
    FirstCallOpens(born, l, key, l.window - 1);
    BurstCounted(one, born, l, key, l.window - 1, l.requests - 1, Window(0, 1));
    BurstAllowed(one, born, l, key, l.window - 1, l.requests - 1, Window(0, 1), 1);
    OpenWindowCloses(After(one + Burst(key, l.window - 1, l.requests - 1), born, l, false), l, key);
  }

  lemma FirstCallOpens(born: int, l: Limit, key: string, t: int)
    requires 0 <= t < l.window && l.requests >= 1
    ensures Current(After(Burst(key, 0, 1), born, l, false), Call(key, t), l) == Window(0, 1)
  {
    assert Burst(key, 0, 1) == [Call(key, 0)];
    assert Burst(key, 0, 1)[..0] == [];
    assert Prepared(Burst(key, 0, 1), born, l, false) == State(map[], born);
  }

  lemma OpenWindowCloses(s: State, l: Limit, key: string)
    requires l.window >= 2 && Current(s, Call(key, l.window - 1), l).start == 0
    ensures Current(s, Call(key, l.window), l) == Window(l.window, 0)
  {
  }

  /** What the key's window says about the calls allowed at the instant `a`, when a
      window is a single instant. */
  predicate InstantInvariant(s: State, key: string, a: int, n: int, t: int, l: Limit) {
    && (key in s.buckets ==> 1 <= s.buckets[key].count <= l.requests && s.buckets[key].start <= t)
    && (t < a ==> n == 0)
    && (t == a ==> n <= if key in s.buckets && s.buckets[key].start == a then s.buckets[key].count else 0)
    && n <= l.requests
  }

  lemma {:induction false} InstantStep(trace: seq<Call>, born: int, l: Limit, key: string, a: int)
    requires l.window == 1 && l.requests >= 1 && Nondecreasing(trace) && trace != []
    ensures InstantInvariant(After(trace, born, l, false), key, a,
                             AllowedIn(trace, Answers(trace, born, l, false), key, a, l), trace[|trace| - 1].now, l)
    decreases |trace|
  {
    var front := trace[..|trace| - 1];
    assert Answers(trace, born, l, false)[..|front|] == Answers(front, born, l, false);
    if front != [] {
      InstantStep(front, born, l, key, a);
      assert front[|front| - 1].now <= trace[|trace| - 1].now;
    } else {
      assert After(front, born, l, false) == State(map[], born);
    }
  }

  /** The bound is met by this trace, in the interval from `a`. */
  ghost predicate MeetsBound(trace: seq<Call>, a: int, born: int, l: Limit, key: string) {
    Nondecreasing(trace) && AllowedIn(trace, Answers(trace, born, l, true), key, a, l) == 2 * l.requests - 1
  }

  /** The bound of 2R - 1 is met by some trace exactly if the window has at least two
      instants, or only one request is allowed. */
  lemma SlidingWindowBoundIsMetIff(born: int, l: Limit, key: string)
    requires l.window > 0 && l.requests >= 1
    ensures (exists trace, a :: MeetsBound(trace, a, born, l, key)) <==> l.window >= 2 || l.requests == 1
  {
    if l.window >= 2 {
      var trace := SlidingWindowBoundIsSharp(born, l, key);
      assert MeetsBound(trace, 1, born, l, key);
    } else if l.requests == 1 {
      var one := Burst(key, 0, 1);
      assert [] + one == one;
      BurstTimes(key, 0, 1);
      BurstAllowed([], born, l, key, 0, 1, Window(0, 0), 0);
      CollectorIsInvisible(one, born, l);
      assert MeetsBound(one, 0, born, l, key);
    } else {
      forall trace, a ensures !MeetsBound(trace, a, born, l, key) {
        if Nondecreasing(trace) {
          CollectorIsInvisible(trace, born, l);
          if trace == [] {
            assert AllowedIn(trace, [], key, a, l) == 0;
          } else {
            InstantStep(trace, born, l, key, a);
          }
        }
      }
    }
  }

  // ----- retryAfter -----

  /** While no call of the key reaches the promised instant, its full window stays. */
  lemma {:induction false} RefusedWindowStays(trace: seq<Call>, more: seq<Call>, born: int, l: Limit)
    requires l.window > 0 && trace != []
    requires !LastAnswer(trace, born, l, false).allowed
    requires forall i :: 0 <= i < |more| && more[i].key == trace[|trace| - 1].key ==>
               more[i].now < trace[|trace| - 1].now + LastAnswer(trace, born, l, false).retryAfter
    ensures var c := trace[|trace| - 1];
            var s := After(trace + more, born, l, false);
            && c.key in s.buckets && s.buckets[c.key].count >= l.requests
            && s.buckets[c.key].start + l.window == c.now + LastAnswer(trace, born, l, false).retryAfter
    decreases |more|
  {
    if more == [] {
      assert trace + more == trace;
    } else {
      RefusedWindowStays(trace, more[..|more| - 1], born, l);
      assert (trace + more)[..|trace + more| - 1] == trace + more[..|more| - 1];
    }
  }

  /** After a refusal the key stays refused until the promised instant, and the
      first call at or after it is allowed, whatever other keys do meanwhile. */
  lemma RetryAfterIsExact(trace: seq<Call>, more: seq<Call>, born: int, l: Limit, next: Call)
    requires l.window > 0 && l.requests >= 1 && trace != []
    requires Nondecreasing(trace + more + [next])
    requires next.key == trace[|trace| - 1].key
    requires !LastAnswer(trace, born, l, true).allowed
    ensures var until := trace[|trace| - 1].now + LastAnswer(trace, born, l, true).retryAfter;
            && trace[|trace| - 1].now < until <= trace[|trace| - 1].now + l.window
            && ((forall i :: 0 <= i < |more| && more[i].key == next.key ==> more[i].now < until) ==>
                  (LastAnswer(trace + more + [next], born, l, true).allowed <==> next.now >= until))
  {
    var all := trace + more + [next];
    assert Nondecreasing(trace) by {
      assert forall i :: 0 <= i < |trace| ==> all[i] == trace[i];
    }
    LastAnswersAgree(trace, born, l);
    LastAnswersAgree(all, born, l);
    StoredStartsPast(trace, born, l, next.key);
    var until := trace[|trace| - 1].now + LastAnswer(trace, born, l, true).retryAfter;
    if forall i :: 0 <= i < |more| && more[i].key == next.key ==> more[i].now < until {
      RefusedWindowStays(trace, more, born, l);
      assert all[..|all| - 1] == trace + more;
    }
  }

  lemma LastAnswersAgree(trace: seq<Call>, born: int, l: Limit)
    requires l.window > 0 && Nondecreasing(trace) && trace != []
    ensures LastAnswer(trace, born, l, true) == LastAnswer(trace, born, l, false)
  {
    CollectorKeepsOpen(trace, born, l, trace[|trace| - 1].now);
    assert Current(Prepared(trace, born, l, true), trace[|trace| - 1], l)
        == Current(Prepared(trace, born, l, false), trace[|trace| - 1], l);
  }

  lemma {:induction false} StoredStartsPast(trace: seq<Call>, born: int, l: Limit, key: string)
    requires l.window > 0 && Nondecreasing(trace) && trace != []
    requires key in After(trace, born, l, false).buckets
    ensures After(trace, born, l, false).buckets[key].start <= trace[|trace| - 1].now
    decreases |trace|
  {
    var front := trace[..|trace| - 1];
    if front != [] {
      assert front[|front| - 1].now <= trace[|trace| - 1].now;
      if key in After(front, born, l, false).buckets {
        StoredStartsPast(front, born, l, key);
      }
    } else {
      assert After(front, born, l, false) == State(map[], born);
    }
  }

  // ----- the limiter as the source keeps it -----

  class Bucket {
    var windowStart: int
    var count: int

    constructor (start: int)
      ensures windowStart == start && count == 0
    {
      windowStart, count := start, 0;
    }
  }

  class RateLimiter {
    const limit: Limit
    var buckets: map<string, Bucket>
    var lastGC: int

    constructor (requests: int, window: int, born: int)
      ensures Valid() && limit == Limit(requests, window) && Abs() == State(map[], born)
    {
      limit := Limit(requests, window);
      buckets := map[];
      lastGC := born;
    }

    /** No two keys share a bucket object. */
    ghost predicate Valid()
      reads this
    {
      forall j, k :: j in buckets && k in buckets && j != k ==> buckets[j] != buckets[k]
    }

    ghost function Abs(): State
      reads this, buckets.Values
    {
      State(map k | k in buckets :: Window(buckets[k].windowStart, buckets[k].count), lastGC)
    }

    /** Counts one request of a key and says whether it is within the limit. */
    method Allow(key: string, now: int) returns (allowed: bool, retryAfter: int)
      requires Valid()
      modifies this, buckets.Values
      ensures Valid() && fresh(buckets.Values - old(buckets.Values))
      ensures var s := Collected(old(Abs()), now, limit);
              && Abs() == Counted(s, Call(key, now), limit)
              && Answer(allowed, retryAfter) == AnswerTo(s, Call(key, now), limit)
    {
      Collect(now);
      allowed, retryAfter := Count(key, now, Abs());
    }

    /** The request in the key's bucket, after the collector. */
    method Count(key: string, now: int, ghost s: State) returns (allowed: bool, retryAfter: int)
      requires Valid() && Abs() == s
      modifies this, buckets.Values
      ensures Valid() && fresh(buckets.Values - old(buckets.Values))
      ensures Abs() == Counted(s, Call(key, now), limit)
      ensures Answer(allowed, retryAfter) == AnswerTo(s, Call(key, now), limit)
    {
      var b := BucketFor(key, now);
      if b.count >= limit.requests {
        return false, b.windowStart + limit.window - now;
      }
      CountIn(key, b);
      return true, 0;
    }

    /** One more request in the key's window. */
    method CountIn(key: string, b: Bucket)
      requires Valid() && key in buckets && buckets[key] == b
      modifies b`count
      ensures Abs() == State(old(Abs()).buckets[key := Window(b.windowStart, old(b.count) + 1)], lastGC)
    {
      b.count := b.count + 1;
    }

    /** The key's open bucket, replaced by a new one if there is none. */
    method BucketFor(key: string, now: int) returns (b: Bucket)
      requires Valid()
      modifies this
      ensures Valid() && lastGC == old(lastGC) && fresh(buckets.Values - old(buckets.Values))
      ensures key in buckets && buckets[key] == b
      ensures buckets == old(buckets)[key := b]
      ensures Window(b.windowStart, b.count) == Current(old(Abs()), Call(key, now), limit)
      ensures Abs() == State(old(Abs()).buckets[key := Current(old(Abs()), Call(key, now), limit)], lastGC)
    {
      if key !in buckets || now - buckets[key].windowStart >= limit.window {
        b := new Bucket(now);
        buckets := buckets[key := b];
      } else {
        b := buckets[key];
      }
    }

    /** Drops expired buckets, at most once per window. */
    method Collect(now: int)
      requires Valid()
      modifies this
      ensures Valid() && buckets.Values <= old(buckets.Values)
      ensures Abs() == Collected(old(Abs()), now, limit)
    {
      if now - lastGC < limit.window {
        return;
      }
      lastGC := now;
      DropExpired(now);
    }

    method DropExpired(now: int)
      requires Valid()
      modifies this`buckets
      ensures buckets ==
              map k | k in old(buckets) && now - old(buckets)[k].windowStart < limit.window :: old(buckets)[k]
    {
      var keys := buckets.Keys;
      ghost var before := buckets;
      while keys != {}
        invariant keys <= before.Keys
        invariant forall k :: k in buckets ==> k in before && buckets[k] == before[k]
        invariant forall k :: k in before ==>
                    (k in buckets <==> k in keys || now - before[k].windowStart < limit.window)
        decreases |keys|
      {
        var key :| key in keys;
        keys := keys - {key};
        if now - buckets[key].windowStart >= limit.window {
          buckets := buckets - {key};
        }
      }
    }
  }
}
