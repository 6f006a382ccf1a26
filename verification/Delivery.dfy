/** Outbound webhook deliveries: bounded retries with an exponential, capped backoff. */
module Delivery {
  import opened Text

  const BACKOFF_BASE := 30
  const BACKOFF_CAP := 6 * 60 * 60
  const MAX_ATTEMPTS := 10
  const LAST_ERROR_MAX := 1000

  function Pow2(n: nat): nat { if n == 0 then 1 else 2 * Pow2(n - 1) }

  function ComputeBackoffDelay(attempts: int): int {
    var safe := if attempts > 0 then attempts else 0;
    var raw := Pow2(if safe < 32 then safe else 32) * BACKOFF_BASE;
    if raw < BACKOFF_CAP then raw else BACKOFF_CAP
  }

  lemma {:induction false} Pow2Grows(m: nat, n: nat)
    requires m <= n
    ensures Pow2(m) <= Pow2(n)
    decreases n
  {
    if m < n {
      Pow2Grows(m, n - 1);
    }
  }

  lemma Pow2Ten()
    ensures Pow2(1) == 2 && Pow2(2) == 4 && Pow2(3) == 8 && Pow2(4) == 16 && Pow2(5) == 32
    ensures Pow2(6) == 64 && Pow2(7) == 128 && Pow2(8) == 256 && Pow2(9) == 512 && Pow2(10) == 1024
  {
    assert Pow2(4) == 16;
    assert Pow2(7) == 128;
  }

  /** The clamped exponent never shows: the delay is the capped exponential for every number of attempts. */
  lemma BackoffIsCappedExponential(attempts: nat)
    ensures ComputeBackoffDelay(attempts) == if 30 * Pow2(attempts) < 21600 then 30 * Pow2(attempts) else 21600
    ensures ComputeBackoffDelay(attempts) == 21600 <==> attempts >= 10
  {
    Pow2Ten();
    if attempts >= 10 {
      Pow2Grows(10, attempts);
      Pow2Grows(10, if attempts < 32 then attempts else 32);
    } else {
      Pow2Grows(attempts, 9);
    }
  }

  /** Delays never shrink and stay between base and cap; an attempt count below zero counts as none. */
  lemma BackoffMonotone(m: int, n: int)
    requires m <= n
    ensures BACKOFF_BASE <= ComputeBackoffDelay(m) <= ComputeBackoffDelay(n) <= BACKOFF_CAP
    ensures m <= 0 ==> ComputeBackoffDelay(m) == BACKOFF_BASE
  {
    var m', n' := if m > 0 then m else 0, if n > 0 then n else 0;
    BackoffIsCappedExponential(m');
    BackoffIsCappedExponential(n');
    Pow2Grows(0, m');
    Pow2Grows(m', n');
  }

  // ---------------------------------------------------------------- one run of the worker

  datatype Status = Pending | Delivered | Failed

  datatype State = State(status: Status, attempts: int, lastError: Option<string>, nextAttemptAt: Option<int>)

  /** What one run of the worker meets: a missing endpoint, a 2xx response, or an error with its message. */
  datatype World = EndpointMissing | Accepts | Refuses(message: string)

  function Truncated(message: string): string {
    if |message| <= LAST_ERROR_MAX then message else message[..LAST_ERROR_MAX]
  }

  function Next(s: State, world: World, now: int): State {
    if s.status != Pending then s
    else match world
      case EndpointMissing => State(Failed, s.attempts, Some("endpoint not found"), None)
      case Accepts => State(Delivered, s.attempts, None, None)
      case Refuses(message) =>
        var made := s.attempts + 1;
        if made >= MAX_ATTEMPTS then State(Failed, made, Some(Truncated(message)), None)
        else State(Pending, made, Some(Truncated(message)), Some(now + ComputeBackoffDelay(made)))
  }

  predicate Posts(s: State, world: World) { s.status == Pending && world != EndpointMissing }

  /** The stored delivery row, with the number of requests sent so far as a ghost log. */
  class WebhookDelivery {
    var status: Status
    var attempts: int
    var lastError: Option<string>
    var nextAttemptAt: Option<int>
    ghost var posts: seq<World>

    constructor ()
      ensures View() == State(Pending, 0, None, None) && posts == []
    {
      status, attempts, lastError, nextAttemptAt := Pending, 0, None, None;
      posts := [];
    }

    function View(): State
      reads this
    {
      State(status, attempts, lastError, nextAttemptAt)
    }

    method Deliver(world: World, now: int)
      modifies this
      ensures View() == Next(old(View()), world, now)
      ensures posts == old(posts) + if Posts(old(View()), world) then [world] else []
      ensures old(status) != Pending ==> View() == old(View()) && posts == old(posts)
      ensures old(status) == Pending && world.EndpointMissing? ==>
        status == Failed && attempts == old(attempts) && nextAttemptAt == None && posts == old(posts)
        && lastError == Some("endpoint not found")
      ensures old(status) == Pending && world.Accepts? ==>
        status == Delivered && attempts == old(attempts) && nextAttemptAt == None && lastError == None
        && posts == old(posts) + [world]
      ensures old(status) == Pending && world.Refuses? ==>
        && attempts == old(attempts) + 1 && posts == old(posts) + [world] && lastError.Some?
        && lastError.value == (if |world.message| < 1000 then world.message else world.message[..1000])
        && status == (if attempts < 10 then Pending else Failed)
        && nextAttemptAt == if attempts < 10 then Some(now + ComputeBackoffDelay(attempts)) else None
    {
      if status == Delivered || status == Failed {
        return;
      }
      if world == EndpointMissing {
        status, lastError, nextAttemptAt := Failed, Some("endpoint not found"), None;
        return;
      }
      posts := posts + [world];
      match world
      case Refuses(message) =>
        attempts := attempts + 1;
        lastError := Some(Truncated(message));
        if attempts >= MAX_ATTEMPTS {
          status, nextAttemptAt := Failed, None;
        } else {
          status := Pending;
          nextAttemptAt := Some(now + ComputeBackoffDelay(attempts));
        }
      case Accepts =>
        status, lastError, nextAttemptAt := Delivered, None, None;
    }
  }

  // ---------------------------------------------------------------- whole runs

  /** One run of the worker in a history of runs. */
  datatype Visit = Visit(world: World, now: int)

  function Start(): State { State(Pending, 0, None, None) }

  function After(visits: seq<Visit>): State {
    if visits == [] then Start()
    else Next(After(visits[..|visits| - 1]), visits[|visits| - 1].world, visits[|visits| - 1].now)
  }

  /** The requests sent in a history. */
  function Sent(visits: seq<Visit>): seq<World> {
    if visits == [] then []
    else
      var front, last := visits[..|visits| - 1], visits[|visits| - 1].world;
      Sent(front) + if Posts(After(front), last) then [last] else []
  }

  predicate IsRefusal(w: World) { w.Refuses? }

  /**
   * What the state says about the requests sent: all refused while pending; refused, and ten unless the
   * endpoint went missing, when failed; refused up to the last one when delivered.
   */
  ghost predicate Consistent(s: State, sent: seq<World>) {
    var refusals := if s.status == Delivered then |sent| - 1 else |sent|;
    && refusals >= 0 && s.attempts == refusals && refusals <= MAX_ATTEMPTS
    && (forall i :: 0 <= i < refusals ==> IsRefusal(sent[i]))
    && (s.status == Delivered ==> sent[refusals] == Accepts)
    && (s.status != Failed ==> refusals < MAX_ATTEMPTS)
    && (s.status == Failed ==> refusals == MAX_ATTEMPTS || s.lastError == Some("endpoint not found"))
    && (s.status == Pending && sent != [] ==> s.nextAttemptAt.Some?)
  }

  lemma ConsistentStep(s: State, sent: seq<World>, world: World, now: int)
    requires Consistent(s, sent)
    ensures Consistent(Next(s, world, now), sent + if Posts(s, world) then [world] else [])
  {
    hide ComputeBackoffDelay, Truncated;
  }

  lemma {:induction false} RunConsistent(visits: seq<Visit>)
    ensures Consistent(After(visits), Sent(visits))
  {
    hide Next, Posts;
    if visits != [] {
      var front, last := visits[..|visits| - 1], visits[|visits| - 1];
      RunConsistent(front);
      ConsistentStep(After(front), Sent(front), last.world, last.now);
    }
  }

  /** However often the worker runs: at most ten requests, at most one answered with success, and that one last. */
  lemma AtMostTenPosts(visits: seq<Visit>)
    ensures |Sent(visits)| <= MAX_ATTEMPTS
    ensures forall i :: 0 <= i < |Sent(visits)| && Sent(visits)[i] == Accepts ==> i == |Sent(visits)| - 1
    ensures After(visits).status == Delivered <==> Accepts in Sent(visits)
  {
    hide Sent, After;
    RunConsistent(visits);
    var s, sent := After(visits), Sent(visits);
    if s.status == Delivered {
      assert sent[|sent| - 1] == Accepts;
    } else {
      forall i | 0 <= i < |sent| ensures sent[i] != Accepts {
        assert IsRefusal(sent[i]);
      }
    }
  }

  /** Delivered and failed are final: no later run changes the row or sends anything. */
  lemma {:induction false} FinalStatesStay(visits: seq<Visit>, more: seq<Visit>)
    requires After(visits).status != Pending
    ensures After(visits + more) == After(visits) && Sent(visits + more) == Sent(visits)
  {
    if more == [] {
      assert visits + more == visits;
    } else {
      FinalStatesStay(visits, more[..|more| - 1]);
      assert (visits + more)[..|visits + more| - 1] == visits + more[..|more| - 1];
    }
  }

  // ---------------------------------------------------------------- an endpoint that always refuses

  /** Every visit finds the endpoint and gets an error. */
  ghost predicate AllRefused(visits: seq<Visit>) { forall i :: 0 <= i < |visits| ==> IsRefusal(visits[i].world) }

  /** The time the row asks for before visit i; any time before the first visit and after the last attempt. */
  function AskedFor(visits: seq<Visit>, i: nat): int
    requires i < |visits|
  {
    var next := After(visits[..i]).nextAttemptAt;
    if next.Some? then next.value else visits[i].now
  }

  /** No visit comes earlier than asked. */
  ghost predicate NeverEarly(visits: seq<Visit>) {
    forall i :: 0 <= i < |visits| ==> visits[i].now >= AskedFor(visits, i)
  }

  /** Every visit comes at the very time asked for. */
  ghost predicate Punctual(visits: seq<Visit>) {
    forall i :: 0 <= i < |visits| ==> visits[i].now == AskedFor(visits, i)
  }

  function TotalDelay(n: nat): int { if n == 0 then 0 else TotalDelay(n - 1) + ComputeBackoffDelay(n) }

  /** Refusals at any times: one attempt each, pending until the tenth, the next one asked for after the backoff. */
  lemma {:induction false} RefusedState(visits: seq<Visit>)
    requires AllRefused(visits) && 0 < |visits| <= MAX_ATTEMPTS
    ensures var s, n := After(visits), |visits|;
      && s.attempts == n && s.status == (if n < MAX_ATTEMPTS then Pending else Failed)
      && s.nextAttemptAt == if n < MAX_ATTEMPTS then Some(visits[n - 1].now + ComputeBackoffDelay(n)) else None
  {
    hide ComputeBackoffDelay, Truncated;
    var n := |visits|;
    assert IsRefusal(visits[n - 1].world);
    if n == 1 {
      assert After(visits[..n - 1]) == Start();
    } else {
      RefusedPrefix(visits, n - 1);
      RefusedState(visits[..n - 1]);
    }
  }

  lemma RefusedPrefix(visits: seq<Visit>, k: nat)
    requires AllRefused(visits) && k <= |visits|
    ensures AllRefused(visits[..k])
  {
  }

  /** The time from the first to the last of the visits so far. */
  lemma {:induction false} Elapsed(visits: seq<Visit>, n: nat)
    requires AllRefused(visits) && 0 < n <= |visits| && n <= MAX_ATTEMPTS
    ensures NeverEarly(visits) ==> visits[n - 1].now - visits[0].now >= TotalDelay(n - 1)
    ensures Punctual(visits) ==> visits[n - 1].now - visits[0].now == TotalDelay(n - 1)
  {
    hide After, ComputeBackoffDelay, AllRefused;
    if n > 1 {
      Elapsed(visits, n - 1);
      RefusedPrefix(visits, n - 1);
      RefusedState(visits[..n - 1]);
      assert AskedFor(visits, n - 1) == visits[n - 2].now + ComputeBackoffDelay(n - 1);
    }
  }

  lemma TotalDelayNine()
    ensures TotalDelay(9) == 30660
  {
    hide ComputeBackoffDelay;
    Delays();
    assert TotalDelay(3) == 420;
    assert TotalDelay(6) == 3780;
  }

  lemma Delays()
    ensures ComputeBackoffDelay(1) == 60 && ComputeBackoffDelay(2) == 120 && ComputeBackoffDelay(3) == 240
    ensures ComputeBackoffDelay(4) == 480 && ComputeBackoffDelay(5) == 960 && ComputeBackoffDelay(6) == 1920
    ensures ComputeBackoffDelay(7) == 3840 && ComputeBackoffDelay(8) == 7680 && ComputeBackoffDelay(9) == 15360
  {
    Pow2Ten();
  }

  /**
   * An endpoint that always fails, visited at any times: pending through nine attempts, failed from the tenth on,
   * and never tried again. The tenth attempt comes at least 30660 seconds after the first if no visit comes
   * earlier than asked, and exactly then if all come on time.
   */
  lemma TenRefusals(visits: seq<Visit>)
    requires AllRefused(visits) && |visits| >= MAX_ATTEMPTS
    ensures After(visits).status == Failed && After(visits).attempts == 10 && After(visits).nextAttemptAt.None?
    ensures forall k :: 0 < k < 10 ==> After(visits[..k]).status == Pending && After(visits[..k]).attempts == k
    ensures Sent(visits) == Sent(visits[..10])
    ensures NeverEarly(visits) ==> visits[9].now - visits[0].now >= 30660
    ensures Punctual(visits) ==> visits[9].now - visits[0].now == 30660
  {
    hide After, Sent, AllRefused, NeverEarly, Punctual, TotalDelay;
    forall k | 0 < k <= 10
      ensures After(visits[..k]).status == (if k < 10 then Pending else Failed) && After(visits[..k]).attempts == k
    {
      RefusedPrefix(visits, k);
      RefusedState(visits[..k]);
    }
    RefusedPrefix(visits, 10);
    RefusedState(visits[..10]);
    FinalStatesStay(visits[..10], visits[10..]);
    assert visits[..10] + visits[10..] == visits;
    Elapsed(visits, 10);
    TotalDelayNine();
  }
}
