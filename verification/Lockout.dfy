/** Failed-login lockout: the in-process tracker and the gate in front of the password check. */
module Lockout {
  import opened Text
  import opened Windows

  const FAILED_LOGIN_LIMIT := 5
  const FAILED_LOGIN_WINDOW := 15 * 60
  const FAILED_LOGIN_LOCKOUT := 15 * 60

  /** What the tracker holds for one key. */
  datatype Account = Account(bucket: seq<int>, lock: Option<int>)

  function Prune(a: Account, now: int): Account {
    Account(DropOld(a.bucket, now - FAILED_LOGIN_WINDOW), if a.lock.Some? && a.lock.value <= now then None else a.lock)
  }

  function Fail(a: Account, now: int): Account {
    var pruned := Prune(a, now);
    if |pruned.bucket| + 1 >= FAILED_LOGIN_LIMIT then Account([], Some(now + FAILED_LOGIN_LOCKOUT))
    else pruned.(bucket := pruned.bucket + [now])
  }

  class FailedLoginTracker {
    var attempts: map<string, seq<int>>
    var locks: map<string, int>

    constructor ()
      ensures Valid() && forall key :: View(key) == Account([], None)
    {
      attempts, locks := map[], map[];
    }

    /** Between calls a stored bucket is never empty and never full. */
    ghost predicate Valid()
      reads this
    {
      forall key :: key in attempts ==> 0 < |attempts[key]| < FAILED_LOGIN_LIMIT
    }

    function View(key: string): Account
      reads this
    {
      Account(if key in attempts then attempts[key] else [], if key in locks then Some(locks[key]) else None)
    }

    method PruneKey(key: string, now: int)
      requires Valid()
      modifies this
      ensures Valid()
      ensures View(key) == Prune(old(View(key)), now)
      ensures forall other :: other != key ==> View(other) == old(View(other))
    {
      var cutoff := now - FAILED_LOGIN_WINDOW;
      var bucket := if key in attempts then attempts[key] else [];
      while bucket != [] && bucket[0] <= cutoff
        invariant |bucket| <= |old(View(key)).bucket|
        invariant DropOld(bucket, cutoff) == DropOld(old(View(key)).bucket, cutoff)
        decreases |bucket|
      {
        bucket := bucket[1..];
      }
      attempts := attempts[key := bucket];
      if key in locks && locks[key] <= now {
        locks := locks - {key};
      }
      if bucket == [] {
        attempts := attempts - {key};
      }
    }

    method IsLocked(key: string, now: nat) returns (locked: bool)
      requires Valid()
      modifies this
      ensures Valid()
      ensures View(key) == Prune(old(View(key)), now) && locked == View(key).lock.Some?
      ensures forall other :: other != key ==> View(other) == old(View(other))
    {
      PruneKey(key, now);
      locked := key in locks && locks[key] != 0 && locks[key] > now;
    }

    method RecordFailure(key: string, now: int)
      requires Valid()
      modifies this
      ensures Valid()
      ensures View(key) == Fail(old(View(key)), now)
      ensures forall other :: other != key ==> View(other) == old(View(other))
    {
      PruneKey(key, now);
      var bucket := (if key in attempts then attempts[key] else []) + [now];
      attempts := attempts[key := bucket];
      if |bucket| >= FAILED_LOGIN_LIMIT {
        locks := locks[key := now + FAILED_LOGIN_LOCKOUT];
        attempts := attempts - {key};
      }
    }

    method RecordSuccess(key: string)
      requires Valid()
      modifies this
      ensures Valid()
      ensures View(key) == Account([], None)
      ensures forall other :: other != key ==> View(other) == old(View(other))
    {
      locks := locks - {key};
      attempts := attempts - {key};
    }

    /** The login handler; an unknown user counts as a wrong password. */
    method Login(key: string, login: Attempt) returns (checked: bool)
      requires Valid()
      modifies this
      ensures Valid()
      ensures (checked, View(key)) == Gate(old(View(key)), login)
      ensures forall other :: other != key ==> View(other) == old(View(other))
    {
      var locked := IsLocked(key, login.asked);
      if locked {
        return false;
      }
      if login.ok {
        RecordSuccess(key);
      } else {
        RecordFailure(key, login.recorded);
      }
      return true;
    }
  }

  /** One request: when the gate looks at the clock, when the outcome is recorded, and what the password check says. */
  datatype Attempt = Attempt(asked: nat, recorded: nat, ok: bool)

  function Gate(a: Account, login: Attempt): (bool, Account) {
    var pruned := Prune(a, login.asked);
    if pruned.lock.Some? then (false, pruned)
    else (true, if login.ok then Account([], None) else Fail(pruned, login.recorded))
  }

  /** A password check that took place; `locks` tells that its failure closed the account. */
  datatype Check = Check(time: int, ok: bool, locks: bool)

  /** A run on one key: the checks so far, the account, and the last time the clock was read. */
  datatype History = History(checks: seq<Check>, account: Account, clock: int)

  function Step(h: History, login: Attempt): History {
    var (checked, after) := Gate(h.account, login);
    if checked then
      History(h.checks + [Check(login.recorded, login.ok, !login.ok && after.bucket == [])], after, login.recorded)
    else History(h.checks, after, login.asked)
  }

  function Run(logins: seq<Attempt>): History {
    if logins == [] then History([], Account([], None), 0) else Step(Run(logins[..|logins| - 1]), logins[|logins| - 1])
  }

  /** Requests on one key come one after the other, on a clock that never goes back. */
  ghost predicate Sequential(logins: seq<Attempt>) {
    && (forall i :: 0 <= i < |logins| ==> logins[i].asked <= logins[i].recorded)
    && (forall i :: 0 <= i && i + 1 < |logins| ==> logins[i].recorded <= logins[i + 1].asked)
  }

  // ---------------------------------------------------------------- the invariant of every run

  predicate Plain(c: Check) { !c.ok && !c.locks }

  /** The failures since the last success or lock. */
  function Streak(checks: seq<Check>): seq<int> {
    if checks == [] || !Plain(checks[|checks| - 1]) then []
    else Streak(checks[..|checks| - 1]) + [checks[|checks| - 1].time]
  }

  /** The fifth failure in a row inside one window. */
  predicate Fifth(checks: seq<Check>, i: nat)
    requires i < |checks|
  {
    && !checks[i].ok && i >= 4
    && Plain(checks[i - 4]) && Plain(checks[i - 3]) && Plain(checks[i - 2]) && Plain(checks[i - 1])
    && checks[i - 4].time > checks[i].time - 900
  }

  ghost predicate LocksAreFifths(checks: seq<Check>) {
    forall i :: 0 <= i < |checks| ==> (checks[i].locks <==> Fifth(checks, i))
  }

  ghost predicate LocksHold(checks: seq<Check>) {
    forall i :: 0 <= i && i + 1 < |checks| && checks[i].locks ==>
      checks[i + 1].time >= checks[i].time + FAILED_LOGIN_LOCKOUT
  }

  function Moments(checks: seq<Check>): seq<int> {
    seq(|checks|, i requires 0 <= i < |checks| => checks[i].time)
  }

  /** A lock stands exactly while the last check closed the account and the lockout time is not over. */
  predicate LockIs(h: History) {
    h.account.lock
    == if h.checks != [] && h.checks[|h.checks| - 1].locks
      && h.clock < h.checks[|h.checks| - 1].time + FAILED_LOGIN_LOCKOUT
       then Some(h.checks[|h.checks| - 1].time + FAILED_LOGIN_LOCKOUT) else None
  }

  ghost predicate Sound(h: History) {
    && Ordered(Moments(h.checks)) && NoneLater(Moments(h.checks), h.clock)
    && LocksAreFifths(h.checks) && LocksHold(h.checks)
    && h.account.bucket == After(Streak(h.checks), h.clock - FAILED_LOGIN_WINDOW)
    && |h.account.bucket| < FAILED_LOGIN_LIMIT
    && LockIs(h)
  }

  lemma InOrderAt(checks: seq<Check>, i: nat, j: nat)
    requires i <= j < |checks| && Ordered(Moments(checks))
    ensures checks[i].time <= checks[j].time
  {
    assert Moments(checks)[i] == checks[i].time && Moments(checks)[j] == checks[j].time;
  }

  lemma PartOrdered(checks: seq<Check>, from: nat, to: nat)
    requires from <= to <= |checks| && Ordered(Moments(checks))
    ensures Ordered(Moments(checks[from..to]))
  {
    forall i, j | 0 <= i < j < to - from ensures checks[from..to][i].time <= checks[from..to][j].time {
      InOrderAt(checks, from + i, from + j);
    }
  }

  lemma {:induction false} StreakOrdered(checks: seq<Check>)
    requires Ordered(Moments(checks))
    ensures Ordered(Streak(checks)) && |Streak(checks)| <= |checks|
    ensures forall i :: 0 <= i < |Streak(checks)| ==> Streak(checks)[i] == checks[|checks| - |Streak(checks)| + i].time
    ensures forall i :: |checks| - |Streak(checks)| <= i < |checks| ==> Plain(checks[i])
    ensures |Streak(checks)| < |checks| ==> !Plain(checks[|checks| - |Streak(checks)| - 1])
  {
    if checks == [] || !Plain(checks[|checks| - 1]) {
    } else {
      var front := checks[..|checks| - 1];
      PartOrdered(checks, 0, |checks| - 1);
      StreakOrdered(front);
      forall i | 0 <= i < |Streak(front)| ensures Streak(front)[i] <= checks[|checks| - 1].time {
        InOrderAt(checks, |front| - |Streak(front)| + i, |checks| - 1);
      }
    }
  }

  lemma LocksAreFifthsAppend(checks: seq<Check>, c: Check)
    requires LocksAreFifths(checks) && (c.locks <==> Fifth(checks + [c], |checks|))
    ensures LocksAreFifths(checks + [c])
  {
    var longer := checks + [c];
    forall i | 0 <= i < |longer| ensures longer[i].locks <==> Fifth(longer, i) {
      if i < |checks| {
        assert longer[i].locks == checks[i].locks;
        assert Fifth(longer, i) <==> Fifth(checks, i);
      }
    }
  }

  lemma LocksHoldAppend(checks: seq<Check>, c: Check)
    requires LocksHold(checks)
    requires checks != [] && checks[|checks| - 1].locks ==> c.time >= checks[|checks| - 1].time + FAILED_LOGIN_LOCKOUT
    ensures LocksHold(checks + [c])
  {
    var longer := checks + [c];
    forall i | 0 <= i && i + 1 < |longer| && longer[i].locks
      ensures longer[i + 1].time >= longer[i].time + FAILED_LOGIN_LOCKOUT
    {
      assert longer[i] == checks[i];
    }
  }

  lemma OrderAppend(checks: seq<Check>, c: Check)
    requires Ordered(Moments(checks)) && NoneLater(Moments(checks), c.time)
    ensures Ordered(Moments(checks + [c])) && NoneLater(Moments(checks + [c]), c.time)
  {
    assert Moments(checks + [c]) == Moments(checks) + [c.time];
  }

  /** Reading the clock: old failures leave the bucket and a finished lock goes. */
  lemma AskSound(h: History, now: int)
    requires Sound(h) && h.clock <= now
    ensures Sound(History(h.checks, Prune(h.account, now), now))
  {
    hide Ordered, NoneLater, LocksAreFifths, LocksHold, After, DropOld, Streak;
    StillNoneLater(Moments(h.checks), h.clock, now);
    StreakOrdered(h.checks);
    AfterOrdered(Streak(h.checks), h.clock - FAILED_LOGIN_WINDOW);
    DropOldIsAfter(h.account.bucket, now - FAILED_LOGIN_WINDOW);
    AfterTwice(Streak(h.checks), h.clock - FAILED_LOGIN_WINDOW, now - FAILED_LOGIN_WINDOW);
    AfterIsSuffix(h.account.bucket, now - FAILED_LOGIN_WINDOW);
  }

  lemma AfterOrdered(times: seq<int>, cutoff: int)
    requires Ordered(times)
    ensures Ordered(After(times, cutoff))
  {
    AfterIsSuffix(times, cutoff);
  }

  /** Four failures in the bucket are the last four checks. */
  lemma FourInTheBucket(checks: seq<Check>, now: int)
    requires Ordered(Moments(checks)) && NoneLater(Moments(checks), now)
    ensures |After(Streak(checks), now - FAILED_LOGIN_WINDOW)| >= 4
      <==> Fifth(checks + [Check(now, false, true)], |checks|)
    ensures |After(Streak(checks), now - FAILED_LOGIN_WINDOW)| >= 4
      <==> Fifth(checks + [Check(now, false, false)], |checks|)
  {
    hide After, Streak, NoneLater, Ordered;
    StreakOrdered(checks);
    AfterIsSuffix(Streak(checks), now - FAILED_LOGIN_WINDOW);
    var n := |checks|;
    var k := |Streak(checks)|;
    if k >= 4 {
      assert Streak(checks)[k - 4] == checks[n - 4].time;
    } else if n >= 4 {
      assert !Plain(checks[n - k - 1]);
    }
  }

  lemma SucceedSound(h: History, now: int)
    requires Sound(h) && h.account.lock.None? && h.clock <= now
    ensures Sound(History(h.checks + [Check(now, true, false)], Account([], None), now))
  {
    hide Ordered, NoneLater, LocksAreFifths, LocksHold, After;
    var c := Check(now, true, false);
    StillNoneLater(Moments(h.checks), h.clock, now);
    OrderAppend(h.checks, c);
    LocksAreFifthsAppend(h.checks, c);
    LocksHoldAppend(h.checks, c);
    NothingAfter(now - FAILED_LOGIN_WINDOW);
  }

  lemma StreakAppend(checks: seq<Check>, c: Check)
    ensures Streak(checks + [c]) == if Plain(c) then Streak(checks) + [c.time] else []
  {
    assert (checks + [c])[..|checks|] == checks;
  }

  lemma FailSound(h: History, now: int)
    requires Sound(h) && h.account.lock.None? && h.clock <= now
    ensures Sound(History(h.checks + [Check(now, false, Fail(h.account, now).bucket == [])], Fail(h.account, now), now))
  {
    hide Ordered, NoneLater, LocksAreFifths, LocksHold, After, DropOld, Streak, Fifth;
    AskSound(h, now);
    var pruned := Prune(h.account, now);
    var c := Check(now, false, |pruned.bucket| + 1 >= FAILED_LOGIN_LIMIT);
    FourInTheBucket(h.checks, now);
    OrderAppend(h.checks, c);
    LocksAreFifthsAppend(h.checks, c);
    LocksHoldAppend(h.checks, c);
    StreakAppend(h.checks, c);
    NothingAfter(now - FAILED_LOGIN_WINDOW);
    AfterSnoc(Streak(h.checks), now, FAILED_LOGIN_WINDOW);
  }

  lemma StepSound(h: History, login: Attempt)
    requires Sound(h) && h.clock <= login.asked <= login.recorded
    ensures Sound(Step(h, login)) && Step(h, login).clock <= login.recorded
  {
    hide Sound, Prune, Fail;
    AskSound(h, login.asked);
    var asked := History(h.checks, Prune(h.account, login.asked), login.asked);
    if asked.account.lock.None? {
      if login.ok {
        SucceedSound(asked, login.recorded);
      } else {
        FailSound(asked, login.recorded);
      }
    }
  }

  lemma SequentialFront(logins: seq<Attempt>)
    requires Sequential(logins) && logins != []
    ensures Sequential(logins[..|logins| - 1])
    ensures |logins| > 1 ==> logins[|logins| - 2].recorded <= logins[|logins| - 1].asked
  {
    var front := logins[..|logins| - 1];
    assert forall i :: 0 <= i < |front| ==> front[i] == logins[i];
  }

  lemma NewAccount()
    ensures Sound(History([], Account([], None), 0))
  {
  }

  /** After every run: the bucket holds fewer than five failures, and locks are set and kept exactly as stated. */
  lemma {:induction false} RunSound(logins: seq<Attempt>)
    requires Sequential(logins)
    ensures Sound(Run(logins)) && Run(logins).clock <= if logins == [] then 0 else logins[|logins| - 1].recorded
  {
    hide Sound, Step, Sequential;
    if logins == [] {
      NewAccount();
    } else {
      SequentialFront(logins);
      RunSound(logins[..|logins| - 1]);
      LastAttempt(logins);
      StepSound(Run(logins[..|logins| - 1]), logins[|logins| - 1]);
    }
  }

  lemma LastAttempt(logins: seq<Attempt>)
    requires Sequential(logins) && logins != []
    ensures logins[|logins| - 1].asked <= logins[|logins| - 1].recorded
  {
  }

  // ---------------------------------------------------------------- what an attacker gets

  predicate SixFailures(checks: seq<Check>, i: nat)
    requires i + 5 < |checks|
  {
    !checks[i].ok && !checks[i + 1].ok && !checks[i + 2].ok && !checks[i + 3].ok && !checks[i + 4].ok
      && !checks[i + 5].ok
  }

  /** Six failures in a row take at least a window: a lock falls between them, or five of them already do. */
  lemma SixTakeAWindow(checks: seq<Check>, i: nat)
    requires i + 5 < |checks| && SixFailures(checks, i) && Ordered(Moments(checks)) && LocksAreFifths(checks)
      && LocksHold(checks)
    ensures checks[i + 5].time >= checks[i].time + 900
  {
    hide LocksAreFifths, LocksHold, Ordered;
    if m :| i <= m < i + 5 && checks[m].locks {
      LockHoldsAt(checks, m);
      InOrderAt(checks, i, m);
      InOrderAt(checks, m + 1, i + 5);
    } else {
      FifthAt(checks, i + 4);
      InOrderAt(checks, i + 4, i + 5);
    }
  }

  lemma LockHoldsAt(checks: seq<Check>, i: nat)
    requires i + 1 < |checks| && LocksHold(checks) && checks[i].locks
    ensures checks[i + 1].time >= checks[i].time + FAILED_LOGIN_LOCKOUT
  {
  }

  lemma FifthAt(checks: seq<Check>, i: nat)
    requires i < |checks| && LocksAreFifths(checks)
    ensures checks[i].locks <==> Fifth(checks, i)
  {
  }

  predicate At(from: int, c: Check) { InWindow(from, 900, c.time) }

  ghost predicate NoSuccessIn(checks: seq<Check>, from: int) {
    forall i :: 0 <= i < |checks| && At(from, checks[i]) ==> !checks[i].ok
  }

  ghost predicate Slow(checks: seq<Check>) {
    forall i :: 0 <= i && i + 5 < |checks| && SixFailures(checks, i) ==>
      checks[i + 5].time >= checks[i].time + 900
  }

  lemma SlowTail(checks: seq<Check>)
    requires checks != [] && Slow(checks)
    ensures Slow(checks[1..])
  {
    var tail := checks[1..];
    forall i | 0 <= i && i + 5 < |tail| && SixFailures(tail, i)
      ensures tail[i + 5].time >= tail[i].time + 900
    {
      assert SixFailures(checks, i + 1);
    }
  }

  lemma {:induction false} SlowWindow(checks: seq<Check>, from: int)
    requires Ordered(Moments(checks)) && Slow(checks) && NoSuccessIn(checks, from)
    ensures |Filter(c => At(from, c), checks)| <= 5
  {
    hide Slow;
    if checks != [] {
      if checks[0].time < from {
        SlowTail(checks);
        assert checks[1..] == checks[1..|checks|];
        PartOrdered(checks, 1, |checks|);
        SlowWindow(checks[1..], from);
      } else {
        WindowFromTheFront(checks, from);
      }
    }
  }

  lemma WindowFromTheFront(checks: seq<Check>, from: int)
    requires checks != [] && checks[0].time >= from && Ordered(Moments(checks)) && Slow(checks)
      && NoSuccessIn(checks, from)
    ensures |Filter(c => At(from, c), checks)| <= 5
  {
    hide Filter, Ordered, Slow, NoSuccessIn;
    var head := if |checks| < 5 then |checks| else 5;
    assert checks == checks[..head] + checks[head..];
    FilterAppend(c => At(from, c), checks[..head], checks[head..]);
    FilterAll(c => At(from, c), checks[..head]);
    forall i | head <= i < |checks| ensures !At(from, checks[i]) {
      InOrderAt(checks, 0, 5);
      InOrderAt(checks, 5, i);
      if At(from, checks[5]) {
        AllIn(checks, from);
      }
    }
    FilterNone(c => At(from, c), checks[head..]);
  }

  lemma AllIn(checks: seq<Check>, from: int)
    requires |checks| > 5 && checks[0].time >= from && Ordered(Moments(checks)) && Slow(checks)
      && NoSuccessIn(checks, from)
    ensures !At(from, checks[5])
  {
    if At(from, checks[5]) {
      forall i | 0 <= i <= 5 ensures !checks[i].ok {
        InOrderAt(checks, 0, i);
        InOrderAt(checks, i, 5);
        assert At(from, checks[i]);
      }
      SlowAtTheFront(checks);
    }
  }

  lemma SlowAtTheFront(checks: seq<Check>)
    requires |checks| > 5 && Slow(checks) && SixFailures(checks, 0)
    ensures checks[5].time >= checks[0].time + 900
  {
    assert checks[0 + 5] == checks[5];
  }

  /** Any half-open window without a successful login holds at most five password checks, all of them failed. */
  lemma FiveFailuresPerWindow(logins: seq<Attempt>, from: int)
    requires Sequential(logins) && NoSuccessIn(Run(logins).checks, from)
    ensures |Filter(c => At(from, c), Run(logins).checks)| <= 5
  {
    hide Filter, Run, Ordered, LocksAreFifths, LocksHold, NoSuccessIn, NoneLater, After, Streak;
    RunSound(logins);
    var checks := Run(logins).checks;
    forall i | 0 <= i && i + 5 < |checks| && SixFailures(checks, i)
      ensures checks[i + 5].time >= checks[i].time + 900
    {
      SixTakeAWindow(checks, i);
    }
    SlowWindow(checks, from);
  }

  /**
   * A login is turned away without a password check exactly when the last check was the fifth failure in a
   * row inside one window, and less than the lockout time ago.
   */
  lemma TurnedAwayExactly(logins: seq<Attempt>, next: Attempt)
    requires Sequential(logins + [next])
    ensures var checks := Run(logins).checks;
      Run(logins + [next]).checks == checks
      <==> checks != [] && Fifth(checks, |checks| - 1) && next.asked < checks[|checks| - 1].time + 900
  {
    hide Ordered, LocksHold, NoneLater, After, Streak, LocksAreFifths, Sequential, Fifth, DropOld;
    var all := logins + [next];
    assert all[..|logins|] == logins && all[|logins|] == next;
    SequentialFront(all);
    RunSound(logins);
    var h := Run(logins);
    if h.checks != [] {
      FifthAt(h.checks, |h.checks| - 1);
    }
    ClockBefore(logins, next);
    AskSound(h, next.asked);
  }

  lemma ClockBefore(logins: seq<Attempt>, next: Attempt)
    requires Sequential(logins + [next])
    ensures Sequential(logins) && (logins != [] ==> logins[|logins| - 1].recorded <= next.asked)
  {
    SequentialFront(logins + [next]);
    assert (logins + [next])[..|logins|] == logins;
  }
}
