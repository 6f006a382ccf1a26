/** The two request limiters: sliding windows in process, fixed windows in the shared counter. */
module RateLimit {
  import opened Text
  import opened Windows

  // ---------------------------------------------------------------- sliding window

  class InMemoryRateLimiter {
    var buckets: map<string, seq<int>>

    constructor ()
      ensures buckets == map[]
    {
      buckets := map[];
    }

    function Bucket(key: string): seq<int>
      reads this
    {
      if key in buckets then buckets[key] else []
    }

    /** False stands for the 429 response. */
    method Hit(key: string, limit: int, window: nat, now: int) returns (accepted: bool)
      modifies this
      ensures (accepted, Bucket(key)) == SlidingHit(old(Bucket(key)), limit, window, now)
      ensures forall other :: other != key ==> Bucket(other) == old(Bucket(other))
    {
      var cutoff := now - window;
      var bucket := Bucket(key);
      while bucket != [] && bucket[0] <= cutoff
        invariant DropOld(bucket, cutoff) == DropOld(old(Bucket(key)), cutoff)
        decreases |bucket|
      {
        bucket := bucket[1..];
      }
      accepted := |bucket| < limit;
      buckets := buckets[key := if accepted then bucket + [now] else bucket];
    }
  }

  /** One hit on one bucket: the answer and the bucket afterwards. */
  function SlidingHit(bucket: seq<int>, limit: int, window: nat, now: int): (bool, seq<int>) {
    var kept := DropOld(bucket, now - window);
    if |kept| < limit then (true, kept + [now]) else (false, kept)
  }

  /** The accepted times and the bucket after a run of hits on one key. */
  function SlidingRun(times: seq<int>, limit: int, window: nat): (seq<int>, seq<int>) {
    if times == [] then ([], [])
    else
      SlidingStep(SlidingRun(times[..|times| - 1], limit, window), limit, window, times[|times| - 1])
  }

  function SlidingStep(r: (seq<int>, seq<int>), limit: int, window: nat, now: int): (seq<int>, seq<int>) {
    var (ok, bucket) := SlidingHit(r.1, limit, window, now);
    (if ok then r.0 + [now] else r.0, bucket)
  }

  /** The accepted times are ordered and spaced, and the bucket is what the last pruning left of them. */
  ghost predicate SlidingOk(times: seq<int>, limit: int, window: nat) {
    var (accepted, bucket) := SlidingRun(times, limit, window);
    && Ordered(accepted) && Spaced(accepted, window, if limit > 0 then limit else 0)
    && (if times == [] then bucket == [] && accepted == []
        else NoneLater(accepted, times[|times| - 1]) && bucket == After(accepted, times[|times| - 1] - window))
  }

  /** Pruning the bucket leaves exactly the accepted hits of the last window. */
  lemma PrunedBucket(times: seq<int>, limit: int, window: nat, now: int)
    requires window >= 1 && SlidingOk(times, limit, window) && (times != [] ==> times[|times| - 1] <= now)
    ensures DropOld(SlidingRun(times, limit, window).1, now - window)
      == After(SlidingRun(times, limit, window).0, now - window)
  {
    hide After, DropOld, Spaced, NoneLater;
    var (accepted, bucket) := SlidingRun(times, limit, window);
    if times == [] {
      NothingAfter(now - window);
    } else {
      AfterIsSuffix(accepted, times[|times| - 1] - window);
      DropOldIsAfter(bucket, now - window);
      AfterTwice(accepted, times[|times| - 1] - window, now - window);
    }
  }

  lemma {:induction false} SlidingRunIs(times: seq<int>, limit: int, window: nat)
    requires Ordered(times) && window >= 1
    ensures SlidingOk(times, limit, window)
  {
    hide After, DropOld, Spaced, Ordered, NoneLater;
    if times == [] {
      NoTimes(window, if limit > 0 then limit else 0);
    } else {
      var front, now := times[..|times| - 1], times[|times| - 1];
      OrderedFront(times);
      SlidingRunIs(front, limit, window);
      PrunedBucket(front, limit, window, now);
      var accepted := SlidingRun(front, limit, window).0;
      StillNoneLater(accepted, if front == [] then now else front[|front| - 1], now);
      if |After(accepted, now - window)| < limit {
        AcceptOk(accepted, now, limit, window);
      }
    }
  }

  lemma NoTimes(window: nat, n: nat)
    ensures Ordered([]) && Spaced([], window, n) && forall now :: NoneLater([], now)
  {
  }

  lemma OrderedFront(times: seq<int>)
    requires Ordered(times) && times != []
    ensures Ordered(times[..|times| - 1])
    ensures |times| > 1 ==> times[..|times| - 1][|times| - 2] <= times[|times| - 1]
  {
  }

  lemma AcceptOk(accepted: seq<int>, now: int, limit: int, window: nat)
    requires Ordered(accepted) && NoneLater(accepted, now) && window >= 1
    requires limit > 0 && Spaced(accepted, window, limit) && |After(accepted, now - window)| < limit
    ensures Ordered(accepted + [now]) && NoneLater(accepted + [now], now) && Spaced(accepted + [now], window, limit)
    ensures After(accepted + [now], now - window) == After(accepted, now - window) + [now]
  {
    AcceptSpaced(accepted, now, limit, window);
    AfterSnoc(accepted, now, window);
  }

  lemma AcceptSpaced(accepted: seq<int>, now: int, limit: int, window: nat)
    requires Ordered(accepted) && limit > 0 && Spaced(accepted, window, limit)
    requires |After(accepted, now - window)| < limit
    ensures Spaced(accepted + [now], window, limit)
  {
    AfterIsSuffix(accepted, now - window);
    var longer := accepted + [now];
    forall i | 0 <= i && i + limit < |longer| ensures longer[i + limit] - longer[i] >= window {
      if i + limit < |accepted| {
        assert accepted[i + limit] - accepted[i] >= window;
      }
    }
  }

  /**
   * On an ordered clock the limiter accepts a hit exactly when fewer than `limit` accepted hits lie in
   * the last window, so no half-open window ever holds more than `limit` of them.
   */
  lemma SlidingWindowExact(times: seq<int>, now: int, limit: int, window: nat, from: int)
    requires Ordered(times + [now]) && window >= 1
    ensures var accepted := SlidingRun(times, limit, window).0;
      SlidingRun(times + [now], limit, window).0
        == if |After(accepted, now - window)| < limit then accepted + [now] else accepted
    ensures |Within(SlidingRun(times, limit, window).0, from, window)| <= if limit > 0 then limit else 0
  {
    hide After, DropOld, Within, Spaced, SlidingRun, NoneLater;
    FrontOrdered(times, now);
    SlidingSnoc(times, now, limit, window);
    SlidingRunIs(times, limit, window);
    PrunedBucket(times, limit, window, now);
    SpacedWindow(SlidingRun(times, limit, window).0, window, if limit > 0 then limit else 0, from);
  }

  lemma SlidingSnoc(times: seq<int>, now: int, limit: int, window: nat)
    ensures SlidingRun(times + [now], limit, window)
      == SlidingStep(SlidingRun(times, limit, window), limit, window, now)
  {
    hide SlidingStep;
    assert (times + [now])[..|times|] == times;
  }

  lemma FrontOrdered(times: seq<int>, now: int)
    requires Ordered(times + [now])
    ensures Ordered(times) && (times != [] ==> times[|times| - 1] <= now)
  {
    var longer := times + [now];
    assert forall i :: 0 <= i < |times| ==> longer[i] == times[i];
    assert times != [] ==> longer[|times| - 1] <= longer[|times|];
  }

  // ---------------------------------------------------------------- fixed window

  /** The shared counter: INCR, and EXPIRE on the first hit of a period. A key past its expiry is gone. */
  datatype Counter = Absent | Counter(count: nat, start: int)

  function CounterHit(c: Counter, window: nat, now: int): Counter {
    if c.Absent? || now >= c.start + window then Counter(1, now) else Counter(c.count + 1, c.start)
  }

  datatype Entry = Entry(value: nat, expiry: Option<int>)

  /** The Redis keys `_hit` counts in: INCR on a live key keeps its expiry, on any other key it starts at 1. */
  class SharedCounter {
    var keys: map<string, Entry>

    constructor ()
      ensures Valid() && keys == map[]
    {
      keys := map[];
    }

    ghost predicate Valid()
      reads this
    {
      forall k :: k in keys ==> keys[k].value >= 1 && keys[k].expiry.Some?
    }

    function View(key: string, window: nat): Counter
      reads this
    {
      if key in keys && keys[key].expiry.Some? then Counter(keys[key].value, keys[key].expiry.value - window)
        else Absent
    }

    method Hit(key: string, limit: nat, window: nat, now: int) returns (accepted: bool)
      requires Valid()
      modifies this
      ensures Valid()
      ensures View(key, window) == CounterHit(old(View(key, window)), window, now)
      ensures accepted <==> View(key, window).count <= limit
      ensures forall other, w :: other != key ==> View(other, w) == old(View(other, w))
    {
      var entry := Entry(1, None);
      if key in keys && now < keys[key].expiry.value {
        entry := keys[key].(value := keys[key].value + 1);
      }
      var count := entry.value;
      if count == 1 {
        entry := entry.(expiry := Some(now + window));
      }
      keys := keys[key := entry];
      accepted := count <= limit;
    }
  }

  /** An accepted hit and the start of its period. */
  datatype Accepted = Accepted(time: int, start: int)

  /** The accepted hits and the counter after a run. */
  function FixedRun(times: seq<int>, limit: nat, window: nat): (seq<Accepted>, Counter) {
    if times == [] then ([], Absent)
    else
      FixedStep(FixedRun(times[..|times| - 1], limit, window), limit, window, times[|times| - 1])
  }

  function FixedStep(r: (seq<Accepted>, Counter), limit: nat, window: nat, now: int): (seq<Accepted>, Counter) {
    var after := CounterHit(r.1, window, now);
    (if after.count <= limit then r.0 + [Accepted(now, after.start)] else r.0, after)
  }

  function Min(a: nat, b: nat): nat { if a < b then a else b }

  ghost predicate Inside(accepted: seq<Accepted>, window: nat) {
    forall i :: 0 <= i < |accepted| ==> accepted[i].start <= accepted[i].time < accepted[i].start + window
  }

  ghost predicate InOrder(accepted: seq<Accepted>) {
    forall i, j :: 0 <= i < j < |accepted| ==>
      accepted[i].time <= accepted[j].time && accepted[i].start <= accepted[j].start
  }

  ghost predicate Apart(accepted: seq<Accepted>, limit: nat, window: nat) {
    forall i :: 0 <= i && i + limit < |accepted| ==> accepted[i + limit].start >= accepted[i].start + window
  }

  predicate Opens(accepted: seq<Accepted>, i: nat)
    requires i < |accepted|
  {
    i == 0 || accepted[i - 1].start != accepted[i].start
  }

  ghost predicate OpenedByAHit(accepted: seq<Accepted>) {
    forall i :: 0 <= i < |accepted| && Opens(accepted, i) ==> accepted[i].time == accepted[i].start
  }

  /** The accepted hits fall into periods, at most `limit` in each, that start at least a window apart. */
  ghost predicate Shape(accepted: seq<Accepted>, limit: nat, window: nat) {
    Inside(accepted, window) && InOrder(accepted) && Apart(accepted, limit, window) && OpenedByAHit(accepted)
  }

  /** The counter knows the running period: its hits are the last ones accepted. */
  ghost predicate Current(accepted: seq<Accepted>, c: Counter, limit: nat, window: nat) {
    && (c.Absent? ==> accepted == [])
    && (c.Counter? ==>
          && 1 <= c.count && Min(c.count, limit) <= |accepted|
          && (forall i :: |accepted| - Min(c.count, limit) <= i < |accepted| ==> accepted[i].start == c.start)
          && (forall i :: 0 <= i < |accepted| - Min(c.count, limit) ==> accepted[i].start + window <= c.start))
  }

  ghost predicate Periods(accepted: seq<Accepted>, c: Counter, limit: nat, window: nat) {
    Shape(accepted, limit, window) && Current(accepted, c, limit, window)
  }

  lemma ApartAppend(accepted: seq<Accepted>, a: Accepted, limit: nat, window: nat)
    requires limit >= 1 && Apart(accepted, limit, window)
    requires |accepted| >= limit ==> accepted[|accepted| - limit].start + window <= a.start
    ensures Apart(accepted + [a], limit, window)
  {
    var longer := accepted + [a];
    forall i | 0 <= i && i + limit < |longer| ensures longer[i + limit].start >= longer[i].start + window {
      assert longer[i] == accepted[i];
      if i + limit < |accepted| {
        assert longer[i + limit] == accepted[i + limit];
      }
    }
  }

  lemma OpenedAppend(accepted: seq<Accepted>, a: Accepted)
    requires OpenedByAHit(accepted)
    requires accepted == [] || accepted[|accepted| - 1].start != a.start ==> a.time == a.start
    ensures OpenedByAHit(accepted + [a])
  {
    var longer := accepted + [a];
    forall i | 0 <= i < |longer| && Opens(longer, i) ensures longer[i].time == longer[i].start {
      assert i < |accepted| ==> Opens(accepted, i);
    }
  }

  lemma ShapeAppend(accepted: seq<Accepted>, a: Accepted, limit: nat, window: nat)
    requires limit >= 1 && Shape(accepted, limit, window) && a.start <= a.time < a.start + window
    requires forall i :: 0 <= i < |accepted| ==> accepted[i].time <= a.time && accepted[i].start <= a.start
    requires |accepted| >= limit ==> accepted[|accepted| - limit].start + window <= a.start
    requires accepted == [] || accepted[|accepted| - 1].start != a.start ==> a.time == a.start
    ensures Shape(accepted + [a], limit, window)
  {
    hide Apart, OpenedByAHit;
    ApartAppend(accepted, a, limit, window);
    OpenedAppend(accepted, a);
  }

  ghost predicate NotBefore(accepted: seq<Accepted>, c: Counter, now: int) {
    (forall i :: 0 <= i < |accepted| ==> accepted[i].time <= now) && (c.Counter? ==> c.start <= now)
  }

  /** A hit in the running period. */
  lemma SamePeriod(accepted: seq<Accepted>, c: Counter, limit: nat, window: nat, now: int)
    requires limit >= 1 && Periods(accepted, c, limit, window) && NotBefore(accepted, c, now)
    requires c.Counter? && now < c.start + window
    ensures c.count >= limit ==> Periods(accepted, Counter(c.count + 1, c.start), limit, window)
    ensures c.count < limit ==>
      Periods(accepted + [Accepted(now, c.start)], Counter(c.count + 1, c.start), limit, window)
  {
    hide Shape;
    if c.count < limit {
      StartsBefore(accepted, c, limit, window);
      ShapeAppend(accepted, Accepted(now, c.start), limit, window);
    }
  }

  lemma StartsBefore(accepted: seq<Accepted>, c: Counter, limit: nat, window: nat)
    requires c.Counter? && Current(accepted, c, limit, window)
    ensures forall i :: 0 <= i < |accepted| ==> accepted[i].start <= c.start
    ensures limit >= 1 ==> |accepted| > 0 && accepted[|accepted| - 1].start == c.start
    ensures c.count < limit <= |accepted| ==> accepted[|accepted| - limit].start + window <= c.start
  {
    var m := Min(c.count, limit);
    forall i | 0 <= i < |accepted| ensures accepted[i].start <= c.start {
      assert i >= |accepted| - m ==> accepted[i].start == c.start;
    }
  }

  /** The first hit of a new period. */
  lemma NewPeriod(accepted: seq<Accepted>, c: Counter, limit: nat, window: nat, now: int)
    requires limit >= 1 && window >= 1 && Periods(accepted, c, limit, window) && NotBefore(accepted, c, now)
    requires c.Counter? ==> now >= c.start + window
    ensures Periods(accepted + [Accepted(now, now)], Counter(1, now), limit, window)
  {
    hide Shape;
    if c.Counter? {
      StartsBefore(accepted, c, limit, window);
    }
    ShapeAppend(accepted, Accepted(now, now), limit, window);
  }

  lemma PeriodsStep(accepted: seq<Accepted>, c: Counter, limit: nat, window: nat, now: int)
    requires limit >= 1 && window >= 1 && Periods(accepted, c, limit, window) && NotBefore(accepted, c, now)
    ensures var after := CounterHit(c, window, now);
      var accepted' := if after.count <= limit then accepted + [Accepted(now, after.start)] else accepted;
      Periods(accepted', after, limit, window) && NotBefore(accepted', after, now)
  {
    hide Periods;
    if c.Counter? && now < c.start + window {
      SamePeriod(accepted, c, limit, window, now);
    } else {
      NewPeriod(accepted, c, limit, window, now);
    }
  }

  lemma {:induction false} FixedRunIs(times: seq<int>, limit: nat, window: nat)
    requires Ordered(times) && limit >= 1 && window >= 1
    ensures var (accepted, c) := FixedRun(times, limit, window);
      Periods(accepted, c, limit, window) && (times != [] ==> NotBefore(accepted, c, times[|times| - 1]))
  {
    hide Periods;
    if times == [] {
      NoPeriods(limit, window);
    } else {
      var front, now := times[..|times| - 1], times[|times| - 1];
      FixedRunIs(front, limit, window);
      var (accepted, c) := FixedRun(front, limit, window);
      if front == [] {
        assert accepted == [];
      }
      PeriodsStep(accepted, c, limit, window, now);
    }
  }

  lemma NoPeriods(limit: nat, window: nat)
    ensures Periods([], Absent, limit, window)
  {
  }

  function Times(accepted: seq<Accepted>): seq<int> {
    seq(|accepted|, i requires 0 <= i < |accepted| => accepted[i].time)
  }

  /** Two periods can meet in a window only without the first hit of the earlier one. */
  lemma TwoPeriods(accepted: seq<Accepted>, limit: nat, window: nat, i: nat)
    requires limit >= 1 && Shape(accepted, limit, window) && i + 2 * limit - 1 < |accepted|
    ensures accepted[i + 2 * limit - 1].time - accepted[i].time >= window
  {
    hide InOrder, Apart, Inside, OpenedByAHit;
    var last := i + 2 * limit - 1;
    InsideAt(accepted, window, i);
    InsideAt(accepted, window, last);
    if Opens(accepted, i) {
      OpenedAt(accepted, i);
      ApartAt(accepted, limit, window, i);
      InsideAt(accepted, window, i + limit);
      InOrderAt(accepted, i + limit, last);
    } else {
      ApartAt(accepted, limit, window, i - 1);
      ApartAt(accepted, limit, window, i - 1 + limit);
    }
  }

  lemma InsideAt(accepted: seq<Accepted>, window: nat, i: nat)
    requires i < |accepted| && Inside(accepted, window)
    ensures accepted[i].start <= accepted[i].time < accepted[i].start + window
  {
  }

  lemma OpenedAt(accepted: seq<Accepted>, i: nat)
    requires i < |accepted| && OpenedByAHit(accepted) && Opens(accepted, i)
    ensures accepted[i].time == accepted[i].start
  {
  }

  lemma ApartAt(accepted: seq<Accepted>, limit: nat, window: nat, i: nat)
    requires i + limit < |accepted| && Apart(accepted, limit, window)
    ensures accepted[i + limit].start >= accepted[i].start + window
  {
  }

  lemma InOrderAt(accepted: seq<Accepted>, i: nat, j: nat)
    requires i <= j < |accepted| && InOrder(accepted)
    ensures accepted[i].time <= accepted[j].time
  {
  }

  lemma OrderedTimes(accepted: seq<Accepted>)
    requires InOrder(accepted)
    ensures Ordered(Times(accepted))
  {
    forall i, j | 0 <= i < j < |accepted| ensures Times(accepted)[i] <= Times(accepted)[j] {
      InOrderAt(accepted, i, j);
    }
  }

  lemma PeriodsSpaced(accepted: seq<Accepted>, limit: nat, window: nat)
    requires limit >= 1 && Shape(accepted, limit, window)
    ensures Ordered(Times(accepted)) && Spaced(Times(accepted), window, 2 * limit - 1)
  {
    hide Apart, OpenedByAHit, InOrder, Inside, Ordered;
    OrderedTimes(accepted);
    var n := 2 * limit - 1;
    forall i | 0 <= i && i + n < |accepted| ensures Times(accepted)[i + n] - Times(accepted)[i] >= window {
      TwoPeriods(accepted, limit, window, i);
    }
  }

  /** The fixed-window counter lets at most 2 * limit - 1 hits into any half-open window of its length. */
  lemma FixedWindowBound(times: seq<int>, limit: nat, window: nat, from: int)
    requires Ordered(times) && limit >= 1 && window >= 1
    ensures |Within(Times(FixedRun(times, limit, window).0), from, window)| <= 2 * limit - 1
  {
    hide Shape, Current, FixedRun, Within, Times;
    FixedRunIs(times, limit, window);
    var (accepted, c) := FixedRun(times, limit, window);
    PeriodsSpaced(accepted, limit, window);
    SpacedWindow(Times(accepted), window, 2 * limit - 1, from);
  }

  lemma FixedSnoc(times: seq<int>, now: int, limit: nat, window: nat)
    ensures FixedRun(times + [now], limit, window) == FixedStep(FixedRun(times, limit, window), limit, window, now)
  {
    hide FixedStep;
    assert (times + [now])[..|times|] == times;
  }

  /** How many accepted hits lie in the window that starts at `from`. */
  function HitsWithin(times: seq<int>, limit: nat, window: nat, from: int): nat {
    |Within(Times(FixedRun(times, limit, window).0), from, window)|
  }

  function Copies<T>(x: T, n: nat): seq<T> { seq(n, _ => x) }

  lemma CopiesStep<T>(x: T, n: nat)
    requires n > 0
    ensures Copies(x, n) == Copies(x, n - 1) + [x]
  {
  }

  /** Hits at one moment of a running period are accepted up to the limit. */
  lemma {:induction false} HitsInPeriod(times: seq<int>, now: int, n: nat, limit: nat, window: nat)
    requires var c := FixedRun(times, limit, window).1; c.Counter? && now < c.start + window && c.count + n <= limit
    ensures var r := FixedRun(times, limit, window);
      FixedRun(times + Copies(now, n), limit, window)
        == (r.0 + Copies(Accepted(now, r.1.start), n), Counter(r.1.count + n, r.1.start))
  {
    hide FixedRun, Copies;
    var r := FixedRun(times, limit, window);
    if n == 0 {
      NoCopies(now);
      NoCopies(Accepted(now, r.1.start));
      assert times + [] == times && r.0 + [] == r.0;
    } else {
      HitsInPeriod(times, now, n - 1, limit, window);
      CopiesStep(now, n);
      CopiesStep(Accepted(now, r.1.start), n);
      FixedSnoc(times + Copies(now, n - 1), now, limit, window);
      ConcatAssoc(times, Copies(now, n - 1), [now]);
      ConcatAssoc(r.0, Copies(Accepted(now, r.1.start), n - 1), [Accepted(now, r.1.start)]);
    }
  }

  lemma NoCopies<T>(x: T)
    ensures Copies(x, 0) == []
  {
  }

  /** One hit, a burst just before its period ends, and a burst when the next one starts. */
  function TwoBursts(limit: nat, window: nat): seq<int>
    requires limit >= 1 && window >= 2
  {
    [0] + Copies(window - 1, limit - 1) + Copies(window, limit)
  }

  lemma BurstsAccepted(limit: nat, window: nat)
    requires limit >= 1 && window >= 2
    ensures FixedRun(TwoBursts(limit, window), limit, window).0
      == [Accepted(0, 0)] + Copies(Accepted(window - 1, 0), limit - 1) + Copies(Accepted(window, window), limit)
  {
    hide FixedRun, Copies;
    NoHits(limit, window);
    FixedSnoc([], 0, limit, window);
    assert [] + [0] == [0] && [] + [Accepted(0, 0)] == [Accepted(0, 0)];
    assert FixedRun([0], limit, window).0 == [Accepted(0, 0)];
    assert FixedRun([0], limit, window).1 == Counter(1, 0);
    HitsInPeriod([0], window - 1, limit - 1, limit, window);
    var first := [0] + Copies(window - 1, limit - 1);
    var taken := [Accepted(0, 0)] + Copies(Accepted(window - 1, 0), limit - 1);
    FixedSnoc(first, window, limit, window);
    assert FixedRun(first, limit, window).0 == taken;
    assert FixedRun(first + [window], limit, window).0 == taken + [Accepted(window, window)];
    assert FixedRun(first + [window], limit, window).1 == Counter(1, window);
    HitsInPeriod(first + [window], window, limit - 1, limit, window);
    CopiesCons<int>(window, limit);
    CopiesCons(Accepted(window, window), limit);
    ConcatAssoc(first, [window], Copies(window, limit - 1));
    ConcatAssoc(taken, [Accepted(window, window)], Copies(Accepted(window, window), limit - 1));
    assert TwoBursts(limit, window) == first + [window] + Copies(window, limit - 1);
  }

  lemma CopiesCons<T>(x: T, n: nat)
    requires n > 0
    ensures Copies(x, n) == [x] + Copies(x, n - 1)
  {
  }

  lemma TimesOfBursts(limit: nat, window: nat)
    requires limit >= 1 && window >= 2
    ensures Times([Accepted(0, 0)] + Copies(Accepted(window - 1, 0), limit - 1)
      + Copies(Accepted(window, window), limit))
      == TwoBursts(limit, window)
  {
  }

  /** The bound is met for every limit and every window of at least two ticks. */
  lemma FixedWindowBoundMet(limit: nat, window: nat)
    requires limit >= 1 && window >= 2
    ensures Ordered(TwoBursts(limit, window))
    ensures HitsWithin(TwoBursts(limit, window), limit, window, window - 1) == 2 * limit - 1
  {
    hide FixedRun, Within, Times;
    BurstsAccepted(limit, window);
    TimesOfBursts(limit, window);
    var before, after := Copies(window - 1, limit - 1), Copies(window, limit);
    WithinAppend([0] + before, after, window - 1, window);
    WithinAppend([0], before, window - 1, window);
    WithinNone([0], window - 1, window);
    WithinAll(before, window - 1, window);
    WithinAll(after, window - 1, window);
    assert Within([0] + before + after, window - 1, window) == [] + before + after;
    assert |before| == limit - 1 && |after| == limit;
    assert TwoBursts(limit, window) == [0] + before + after;
  }

  /** Within one tick all accepted hits are of one period. */
  lemma OneTickSpaced(accepted: seq<Accepted>, limit: nat)
    requires limit >= 1 && Shape(accepted, limit, 1)
    ensures Ordered(Times(accepted)) && Spaced(Times(accepted), 1, limit)
  {
    hide Apart, OpenedByAHit, InOrder, Inside, Ordered;
    OrderedTimes(accepted);
    forall i | 0 <= i && i + limit < |accepted| ensures Times(accepted)[i + limit] - Times(accepted)[i] >= 1 {
      ApartAt(accepted, limit, 1, i);
      InsideAt(accepted, 1, i);
      InsideAt(accepted, 1, i + limit);
    }
  }

  lemma OneTickBound(times: seq<int>, limit: nat, from: int)
    requires Ordered(times) && limit >= 1
    ensures HitsWithin(times, limit, 1, from) <= limit
  {
    hide Shape, Current, FixedRun, Within, Times;
    FixedRunIs(times, limit, 1);
    var accepted := FixedRun(times, limit, 1).0;
    OneTickSpaced(accepted, limit);
    SpacedWindow(Times(accepted), 1, limit, from);
  }

  ghost predicate NeverMoreThanLimit(limit: nat, window: nat) {
    forall times, from :: Ordered(times) ==> HitsWithin(times, limit, window, from) <= limit
  }

  /** The counter keeps every window of its length within the limit exactly for a limit or a window of one. */
  lemma NeverMoreExactly(limit: nat, window: nat)
    requires limit >= 1 && window >= 1
    ensures NeverMoreThanLimit(limit, window) <==> limit == 1 || window == 1
  {
    hide HitsWithin, Ordered;
    if limit == 1 || window == 1 {
      forall times, from | Ordered(times) ensures HitsWithin(times, limit, window, from) <= limit {
        if window == 1 {
          OneTickBound(times, limit, from);
        } else {
          BoundOfOne(times, window, from);
        }
      }
    } else {
      FixedWindowBoundMet(limit, window);
    }
  }

  lemma BoundOfOne(times: seq<int>, window: nat, from: int)
    requires Ordered(times) && window >= 1
    ensures HitsWithin(times, 1, window, from) <= 1
  {
    FixedWindowBound(times, 1, window, from);
  }

  lemma NoHits(limit: nat, window: nat)
    ensures FixedRun([], limit, window) == ([], Absent)
  {
  }
}
