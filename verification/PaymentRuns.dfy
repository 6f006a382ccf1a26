/** What every run of the payment handlers keeps, and which steps break it. */
module PaymentRuns {
  import opened Text
  import opened Payments

  function Run(s: Store, events: seq<Event>): Store {
    if events == [] then s else Step(Run(s, events[..|events| - 1]), events[|events| - 1])
  }

  // ---------------------------------------------------------------- closed intents are not absorbing

  predicate IsCompletion(e: Event) { e.Complete? || (e.Callback? && e.status == Completed) }

  /** Ids are not given twice. */
  predicate NotReissued(events: seq<Event>, id: string) {
    forall k :: 0 <= k < |events| && events[k].Initiate? ==> events[k].id != id
  }

  predicate ClosedAfter(s: Store, events: seq<Event>, id: string, k: nat)
    requires k <= |events|
  {
    id in Run(s, events[..k]).intents && !Open(Run(s, events[..k]).intents[id].status)
  }

  predicate CompletedAfter(s: Store, events: seq<Event>, id: string, k: nat)
    requires k <= |events|
  {
    id in Run(s, events[..k]).intents && Run(s, events[..k]).intents[id].status == Completed
  }

  predicate OpensAgain(e: Event, id: string) { e.Callback? && e.id == id && Open(e.status) }

  predicate TakesBack(e: Event, id: string) { e.id == id && (e.Fail? || (e.Callback? && e.status != Completed)) }

  lemma ClosedStep(s: Store, e: Event, id: string)
    requires id in s.intents && !(e.Initiate? && e.id == id)
    ensures id in Step(s, e).intents
    ensures !Open(s.intents[id].status) ==> (Open(Step(s, e).intents[id].status) <==> OpensAgain(e, id))
    ensures s.intents[id].status == Completed ==> (Step(s, e).intents[id].status != Completed <==> TakesBack(e, id))
  {
    hide Last50, NewIntent, MayInitiate;
  }

  ghost predicate StaysClosed(s: Store, events: seq<Event>, id: string) {
    forall k :: 0 <= k <= |events| ==> ClosedAfter(s, events, id, k)
  }

  ghost predicate StaysCompleted(s: Store, events: seq<Event>, id: string) {
    forall k :: 0 <= k <= |events| ==> CompletedAfter(s, events, id, k)
  }

  /** What holds after every event of a run holds without the last event, and after it. */
  lemma StaysSplit(s: Store, events: seq<Event>, id: string)
    requires events != []
    ensures var front := events[..|events| - 1];
      && (StaysClosed(s, events, id) <==> StaysClosed(s, front, id) && ClosedAfter(s, events, id, |events|))
      && (StaysCompleted(s, events, id) <==> StaysCompleted(s, front, id) && CompletedAfter(s, events, id, |events|))
  {
    hide Run;
    var n := |events| - 1;
    var front := events[..n];
    forall k | 0 <= k <= n
      ensures ClosedAfter(s, events, id, k) == ClosedAfter(s, front, id, k)
      ensures CompletedAfter(s, events, id, k) == CompletedAfter(s, front, id, k)
    {
      assert front[..k] == events[..k];
    }
  }

  lemma LastStep(s: Store, events: seq<Event>, id: string)
    requires events != [] && NotReissued(events, id) && id in Run(s, events[..|events| - 1]).intents
    ensures var n, status := |events| - 1, Run(s, events[..|events| - 1]).intents[id].status;
      && (!Open(status) ==> (ClosedAfter(s, events, id, n + 1) <==> !OpensAgain(events[n], id)))
      && (status == Completed ==> (CompletedAfter(s, events, id, n + 1) <==> !TakesBack(events[n], id)))
  {
    hide Step, OpensAgain, TakesBack, NotReissued;
    var n := |events| - 1;
    assert events[..n + 1] == events;
    LastIsNew(events, id);
    ClosedStep(Run(s, events[..n]), events[n], id);
  }

  lemma LastIsNew(events: seq<Event>, id: string)
    requires events != [] && NotReissued(events, id)
    ensures !(events[|events| - 1].Initiate? && events[|events| - 1].id == id)
    ensures NotReissued(events[..|events| - 1], id)
  {
  }

  predicate NoneOpens(events: seq<Event>, id: string) { forall k :: 0 <= k < |events| ==> !OpensAgain(events[k], id) }

  predicate NoneTakesBack(events: seq<Event>, id: string) {
    forall k :: 0 <= k < |events| ==> !TakesBack(events[k], id)
  }

  lemma NoneSplit(events: seq<Event>, id: string)
    requires events != []
    ensures var n := |events| - 1;
      && (NoneOpens(events, id) <==> NoneOpens(events[..n], id) && !OpensAgain(events[n], id))
      && (NoneTakesBack(events, id) <==> NoneTakesBack(events[..n], id) && !TakesBack(events[n], id))
  {
    hide OpensAgain, TakesBack;
    assert forall k :: 0 <= k < |events| - 1 ==> events[..|events| - 1][k] == events[k];
  }

  lemma NowClosed(s: Store, events: seq<Event>, id: string)
    ensures StaysClosed(s, events, id) ==> id in Run(s, events).intents && !Open(Run(s, events).intents[id].status)
    ensures StaysCompleted(s, events, id) ==>
      id in Run(s, events).intents && Run(s, events).intents[id].status == Completed
  {
    hide Run;
    assert events[..|events|] == events;
    assert StaysClosed(s, events, id) ==> ClosedAfter(s, events, id, |events|);
    assert StaysCompleted(s, events, id) ==> CompletedAfter(s, events, id, |events|);
  }

  /** A closed intent stays closed throughout a run if and only if no callback of the run gives it an open status. */
  lemma {:induction false} ReopenedExactly(s: Store, events: seq<Event>, id: string)
    requires id in s.intents && !Open(s.intents[id].status) && NotReissued(events, id)
    ensures StaysClosed(s, events, id) <==> NoneOpens(events, id)
  {
    hide Step, OpensAgain, NoneOpens, NotReissued, StaysClosed, ClosedAfter;
    if events == [] {
      NothingHappened(s, id);
    } else {
      LastIsNew(events, id);
      ReopenedExactly(s, events[..|events| - 1], id);
      StaysSplit(s, events, id);
      NoneSplit(events, id);
      NowClosed(s, events[..|events| - 1], id);
      if StaysClosed(s, events[..|events| - 1], id) {
        LastStep(s, events, id);
      }
    }
  }

  /** A completed intent stays completed throughout a run if and only if no failure or other status is reported. */
  lemma {:induction false} UncompletedExactly(s: Store, events: seq<Event>, id: string)
    requires id in s.intents && s.intents[id].status == Completed && NotReissued(events, id)
    ensures StaysCompleted(s, events, id) <==> NoneTakesBack(events, id)
  {
    hide Step, TakesBack, NoneTakesBack, NotReissued, StaysCompleted, CompletedAfter;
    if events == [] {
      NothingHappened(s, id);
    } else {
      LastIsNew(events, id);
      UncompletedExactly(s, events[..|events| - 1], id);
      StaysSplit(s, events, id);
      NoneSplit(events, id);
      NowClosed(s, events[..|events| - 1], id);
      if StaysCompleted(s, events[..|events| - 1], id) {
        LastStep(s, events, id);
      }
    }
  }

  lemma NothingHappened(s: Store, id: string)
    ensures id in s.intents && !Open(s.intents[id].status) ==> StaysClosed(s, [], id)
    ensures id in s.intents && s.intents[id].status == Completed ==> StaysCompleted(s, [], id)
    ensures NoneOpens([], id) && NoneTakesBack([], id)
  {
  }

  /** Settling moves an end date back exactly for an unpaid intent, open or closed, that ends earlier. */
  lemma MovedBackExactly(s: Store, id: string, ref: Option<string>, now: int, job: string)
    requires job in s.jobs && s.jobs[job].featured.Some?
    ensures var after := Settle(s, id, ref, now).jobs[job].featured;
      after.None? || after.value < s.jobs[job].featured.value
      <==> && id in s.intents && s.intents[id].job == job && s.intents[id].status != Completed
           && s.intents[id].extended.Some? && s.intents[id].extended.value < s.jobs[job].featured.value
  {
  }

  /**
   * The case in a run: an intent is cancelled, a later one is paid, then the payment for the first one
   * arrives after all. The job loses the ten days the second payment had added.
   */
  lemma LatePaymentMovesBack(terms: Terms, day: int)
    requires day == 24 * 60 * 60
    ensures var start := Store(map[], map["job" := Job("owner", "active", None, [], 0)]);
      var before := [
        Initiate("a", "job", "owner", terms, true, None, 0), Cancel("a", "owner", day),
        Initiate("b", "job", "owner", terms, true, None, 10 * day), Complete("b", None, 11 * day)];
      var late := before + [Complete("a", None, 12 * day)];
      && "job" in Run(start, before).jobs && Run(start, before).jobs["job"].featured == Some(40 * day)
      && "job" in Run(start, late).jobs && Run(start, late).jobs["job"].featured == Some(30 * day)
  {
    hide Last50, Run;
    var start := Store(map[], map["job" := Job("owner", "active", None, [], 0)]);
    var e0 := Initiate("a", "job", "owner", terms, true, None, 0);
    var e1 := Cancel("a", "owner", day);
    var e2 := Initiate("b", "job", "owner", terms, true, None, 10 * day);
    var e3 := Complete("b", None, 11 * day);
    RunFour(start, e0, e1, e2, e3, Complete("a", None, 12 * day));
    var s1 := Step(start, e0);
    assert OpenIds(start.intents, "job", "owner") == {};
    assert s1.intents == map["a" := NewIntent(start, e0)];
    var s2 := Step(s1, e1);
    assert s2.intents["a"].status == Cancelled && s2.intents["a"].extended == Some(30 * day);
    assert OpenIds(s2.intents, "job", "owner") == {};
    var s3 := Step(s2, e2);
    assert s3.intents["b"].extended == Some(40 * day) && s3.intents["a"] == s2.intents["a"];
  }

  lemma RunFour(s: Store, a: Event, b: Event, c: Event, d: Event, e: Event)
    ensures Run(s, [a, b, c, d]) == Step(Step(Step(Step(s, a), b), c), d)
    ensures Run(s, [a, b, c, d] + [e]) == Step(Run(s, [a, b, c, d]), e)
  {
    hide Step;
    assert [a, b, c, d][..3] == [a, b, c] && [a, b, c][..2] == [a, b] && [a, b][..1] == [a] && [a][..0] == [];
    assert ([a, b, c, d] + [e])[..4] == [a, b, c, d];
    assert Run(s, [a]) == Step(s, a);
    assert Run(s, [a, b]) == Step(Run(s, [a]), b);
    assert Run(s, [a, b, c]) == Step(Run(s, [a, b]), c);
  }

  // ---------------------------------------------------------------- runs in which closed intents stay closed

  /**
   * The environment: an intent gets a fresh id, payments arrive for intents that are open or already
   * completed, no callback opens a closed intent, and the clock does not go back.
   */
  predicate Orderly(s: Store, e: Event, clock: int) {
    && e.now >= clock
    && (e.Initiate? ==> e.id !in s.intents)
    && (IsCompletion(e) && e.id in s.intents ==> Open(s.intents[e.id].status) || s.intents[e.id].status == Completed)
    && (e.Callback? && Open(e.status) && e.id in s.intents ==> Open(s.intents[e.id].status))
  }

  function Clock(start: int, events: seq<Event>): int { if events == [] then start else events[|events| - 1].now }

  predicate OrderlyRun(s: Store, start: int, events: seq<Event>) {
    events == []
    || (var front := events[..|events| - 1];
        OrderlyRun(s, start, front) && Orderly(Run(s, front), events[|events| - 1], Clock(start, front)))
  }

  /** The step completes an intent of the job for the first time since it was open. */
  predicate Pays(s: Store, e: Event, job: string) {
    IsCompletion(e) && e.id in s.intents && s.intents[e.id].job == job && s.intents[e.id].status != Completed
  }

  function PaidTimes(s: Store, events: seq<Event>, job: string): nat {
    if events == [] then 0
    else
      var front := events[..|events| - 1];
      PaidTimes(s, front, job) + if Pays(Run(s, front), events[|events| - 1], job) then 1 else 0
  }

  predicate Opens(s: Store, e: Event, job: string) { e.Initiate? && e.job == job && MayInitiate(s, e) }

  /** When an intent for the job was last made. */
  function LastOpened(s: Store, events: seq<Event>, job: string, start: int): int {
    if events == [] then start
    else
      var front, last := events[..|events| - 1], events[|events| - 1];
      if Opens(Run(s, front), last, job) then last.now else LastOpened(s, front, job, start)
  }

  predicate OpenOf(i: Intent, job: string) { i.job == job && Open(i.status) }

  ghost predicate Owned(s: Store, job: string) {
    job in s.jobs && forall id :: id in s.intents && s.intents[id].job == job ==>
      s.intents[id].user == s.jobs[job].owner
  }

  ghost predicate OneOpen(s: Store, job: string) {
    forall a, b :: a in s.intents && b in s.intents && OpenOf(s.intents[a], job) && OpenOf(s.intents[b], job) ==> a == b
  }

  /** An open intent asks for thirty days from the end date, or from when it was made if that is later. */
  ghost predicate OpenExact(s: Store, job: string, start: int, last: int) {
    job in s.jobs
    && forall id :: id in s.intents && OpenOf(s.intents[id], job) ==>
         && start <= s.intents[id].created <= last
         && s.intents[id].extended == Some(Basis(s.jobs[job].featured, s.intents[id].created) + THIRTY_DAYS)
  }

  /** No end date counts as one in the past. */
  function EndOr(featured: Option<int>, start: int): int { if featured.Some? then featured.value else start }

  function Max(a: int, b: int): int { if a > b then a else b }

  predicate Bounded(before: Option<int>, after: Option<int>, start: int, last: int, k: nat) {
    if k == 0 then after == before
    else
      && after.Some?
      && EndOr(before, start) + k * THIRTY_DAYS <= after.value <= Max(EndOr(before, start), last) + k * THIRTY_DAYS
  }

  ghost predicate Invariant(s: Store, job: string, start: int, last: int, before: Option<int>, k: nat) {
    && start <= last && Owned(s, job) && OneOpen(s, job) && OpenExact(s, job, start, last)
    && Bounded(before, s.jobs[job].featured, start, last, k)
  }

  /** Only a payment changes an end date: to what the paid intent asked for. */
  lemma FeaturedStep(s: Store, e: Event, job: string)
    requires job in s.jobs
    ensures job in Step(s, e).jobs && Step(s, e).jobs[job].owner == s.jobs[job].owner
    ensures Step(s, e).jobs[job].featured
      == if Pays(s, e, job) && s.intents[e.id].extended.Some? then s.intents[e.id].extended else s.jobs[job].featured
  {
    hide Last50;
  }

  /** What one step can do to one intent. */
  lemma IntentStep(s: Store, e: Event, id: string, clock: int)
    requires Orderly(s, e, clock) && id in Step(s, e).intents
    ensures var after := Step(s, e).intents[id];
      if id !in s.intents then
        e.Initiate? && e.id == id && MayInitiate(s, e) && after == NewIntent(s, e)
      else
        && after.job == s.intents[id].job && after.user == s.intents[id].user
        && after.extended == s.intents[id].extended && after.created == s.intents[id].created
        && (Open(after.status) ==> Open(s.intents[id].status))
        && (IsCompletion(e) && e.id == id ==> after.status == Completed)
  {
    hide Last50, Basis;
  }

  lemma OwnedStep(s: Store, e: Event, job: string, clock: int)
    requires Owned(s, job) && Orderly(s, e, clock)
    ensures Owned(Step(s, e), job)
  {
    hide Step, Orderly, OpenIds;
    var after := Step(s, e);
    FeaturedStep(s, e, job);
    forall id | id in after.intents && after.intents[id].job == job
      ensures after.intents[id].user == after.jobs[job].owner
    {
      IntentStep(s, e, id, clock);
    }
  }

  lemma OneOpenStep(s: Store, e: Event, job: string, clock: int)
    requires Owned(s, job) && OneOpen(s, job) && Orderly(s, e, clock)
    ensures OneOpen(Step(s, e), job)
  {
    hide Step, Orderly;
    var after := Step(s, e);
    forall a, b | a in after.intents && b in after.intents && OpenOf(after.intents[a], job)
      && OpenOf(after.intents[b], job)
      ensures a == b
    {
      IntentStep(s, e, a, clock);
      IntentStep(s, e, b, clock);
      if a in s.intents && b !in s.intents {
        NoOtherOpen(s, e, a);
      } else if b in s.intents && a !in s.intents {
        NoOtherOpen(s, e, b);
      }
    }
  }

  lemma NoOtherOpen(s: Store, e: Event, id: string)
    requires e.Initiate? && MayInitiate(s, e) && Owned(s, e.job) && id in s.intents
    ensures !OpenOf(s.intents[id], e.job)
  {
    var open := OpenIds(s.intents, e.job, e.user);
    assert OpenFor(s.intents[id], e.job, e.user) ==> id in open;
  }

  /** After a payment nothing is open; otherwise the end date stays and open intents are as they were. */
  lemma OpenExactStep(s: Store, e: Event, job: string, start: int, last: int, clock: int)
    requires OneOpen(s, job) && OpenExact(s, job, start, last) && Orderly(s, e, clock)
    requires last <= e.now && start <= e.now
    ensures OpenExact(Step(s, e), job, start, if Opens(s, e, job) then e.now else last)
  {
    hide Step, OpenIds;
    var after := Step(s, e);
    FeaturedStep(s, e, job);
    assert Pays(s, e, job) ==> OpenOf(s.intents[e.id], job);
    forall id | id in after.intents && OpenOf(after.intents[id], job)
      ensures start <= after.intents[id].created <= if Opens(s, e, job) then e.now else last
      ensures after.intents[id].extended
        == Some(Basis(after.jobs[job].featured, after.intents[id].created) + THIRTY_DAYS)
    {
      IntentStep(s, e, id, clock);
    }
  }

  /** A payment for an open intent adds thirty days at least, and counts them from now at most. */
  lemma BoundedStep(before: Option<int>, featured: Option<int>, created: int, start: int, last: int, k: nat)
    requires Bounded(before, featured, start, last, k) && start <= created <= last
    ensures Bounded(before, Some(Basis(featured, created) + THIRTY_DAYS), start, last, k + 1)
  {
    assert (k + 1) * THIRTY_DAYS == k * THIRTY_DAYS + THIRTY_DAYS;
  }

  lemma BoundedLater(before: Option<int>, featured: Option<int>, start: int, last: int, later: int, k: nat)
    requires Bounded(before, featured, start, last, k) && last <= later
    ensures Bounded(before, featured, start, later, k)
  {
  }

  lemma InvariantStep(s: Store, e: Event, job: string, start: int, last: int, clock: int, before: Option<int>, k: nat)
    requires Invariant(s, job, start, last, before, k) && Orderly(s, e, clock) && last <= clock
    ensures Invariant(Step(s, e), job, start, if Opens(s, e, job) then e.now else last, before,
                      k + if Pays(s, e, job) then 1 else 0)
  {
    hide Step, OneOpen, Owned, Bounded, Basis;
    var last' := if Opens(s, e, job) then e.now else last;
    assert job in s.jobs;
    OwnedStep(s, e, job, clock);
    OneOpenStep(s, e, job, clock);
    OpenExactStep(s, e, job, start, last, clock);
    FeaturedStep(s, e, job);
    if Pays(s, e, job) {
      assert OpenOf(s.intents[e.id], job);
      BoundedStep(before, s.jobs[job].featured, s.intents[e.id].created, start, last, k);
    } else {
      BoundedLater(before, s.jobs[job].featured, start, last, last', k);
    }
  }

  lemma {:induction false} RunInvariant(s: Store, events: seq<Event>, job: string, start: int)
    requires OrderlyRun(s, start, events)
    requires Invariant(s, job, start, start, if job in s.jobs then s.jobs[job].featured else None, 0)
    ensures Invariant(Run(s, events), job, start, LastOpened(s, events, job, start), s.jobs[job].featured,
      PaidTimes(s, events, job))
    ensures LastOpened(s, events, job, start) <= Clock(start, events)
  {
    hide Step, Invariant, Orderly, Opens, Pays;
    InvariantHasJob(s, job, start);
    if events != [] {
      var front, e := events[..|events| - 1], events[|events| - 1];
      RunInvariant(s, front, job, start);
      OrderlyClock(Run(s, front), e, Clock(start, front));
      InvariantStep(Run(s, front), e, job, start, LastOpened(s, front, job, start), Clock(start, front),
                    s.jobs[job].featured, PaidTimes(s, front, job));
    }
  }

  lemma InvariantHasJob(s: Store, job: string, start: int)
    requires Invariant(s, job, start, start, if job in s.jobs then s.jobs[job].featured else None, 0)
    ensures job in s.jobs
  {
  }

  lemma OrderlyClock(s: Store, e: Event, clock: int)
    requires Orderly(s, e, clock)
    ensures e.now >= clock
  {
  }

  /**
   * In an orderly run on a job without open intents at the start: at most one intent is open at a time, it
   * asks for exactly thirty days on top of the end date or the time it was made, and k payments move the
   * end date F to at least F + 30k days and at most max(F, the last initiation) + 30k days.
   */
  lemma FeaturedRuns(s: Store, events: seq<Event>, job: string, start: int)
    requires job in s.jobs && Owned(s, job) && OrderlyRun(s, start, events)
    requires forall id :: id in s.intents ==> !OpenOf(s.intents[id], job)
    ensures var after, k, last := Run(s, events), PaidTimes(s, events, job), LastOpened(s, events, job, start);
      && OneOpen(after, job) && OpenExact(after, job, start, last) && job in after.jobs
      && Bounded(s.jobs[job].featured, after.jobs[job].featured, start, last, k)
  {
    hide Run, PaidTimes, LastOpened, OrderlyRun;
    assert Invariant(s, job, start, start, s.jobs[job].featured, 0);
    RunInvariant(s, events, job, start);
  }
}
