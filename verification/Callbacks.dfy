/** Duplicate callbacks: when the replay caches' answers matter, and what they cannot change. */
module Callbacks {
  import opened Text
  import opened Payments
  import opened PaymentRuns
  import opened Deliveries
  import RC = ReplayCache

  // ---------------------------------------------------------------- up to the times of the last change

  function UntimedIntent(i: Intent): Intent { i.(settled := None, updated := 0) }

  function UntimedJob(j: Job): Job { j.(updated := 0) }

  /** The store without the times at which rows were last changed. */
  function Untimed(s: Store): Store {
    Store(UntimedIntents(s.intents), UntimedJobs(s.jobs))
  }

  function UntimedIntents(intents: map<string, Intent>): map<string, Intent> {
    map id | id in intents :: UntimedIntent(intents[id])
  }

  function UntimedJobs(jobs: map<string, Job>): map<string, Job> { map id | id in jobs :: UntimedJob(jobs[id]) }

  lemma PutUntimed(intents: map<string, Intent>, jobs: map<string, Job>, id: string, i: Intent, j: Job)
    ensures UntimedIntents(intents[id := i]) == UntimedIntents(intents)[id := UntimedIntent(i)]
    ensures UntimedJobs(jobs[id := j]) == UntimedJobs(jobs)[id := UntimedJob(j)]
  {
  }

  lemma LatestUntimed(s: Store, matches: set<string>)
    ensures LatestOne(Untimed(s).intents, matches) == LatestOne(s.intents, matches)
  {
    assert Newest(Untimed(s).intents, matches) == Newest(s.intents, matches);
  }

  lemma MatchesUntimed(s: Store, ref: string, job: string)
    ensures WithRef(Untimed(s).intents, ref) == WithRef(s.intents, ref)
    ensures OfJob(Untimed(s).intents, job) == OfJob(s.intents, job)
  {
  }

  /** The times play no part in what a delivery does. */
  lemma EventUntimed(s: Store, d: Delivery)
    ensures EventOf(Untimed(s), d) == EventOf(s, d) && Keeps(Untimed(s), d) == Keeps(s, d)
  {
    hide LatestOne, WithRef, OfJob, ParseStatus, NormalizeStatus;
    var u := Untimed(s);
    assert forall id :: id in u.intents <==> id in s.intents;
    if d.Mobile? && Named(d.mobile.ref) {
      MatchesUntimed(s, d.mobile.ref.value, "");
      LatestUntimed(s, WithRef(s.intents, d.mobile.ref.value));
    } else if d.Stripe? {
      if Named(d.stripe.session) {
        MatchesUntimed(s, d.stripe.session.value, "");
        LatestUntimed(s, WithRef(s.intents, d.stripe.session.value));
      }
      if Named(d.stripe.job) {
        MatchesUntimed(s, "", d.stripe.job.value);
        LatestUntimed(s, OfJob(s.intents, d.stripe.job.value));
      }
    }
  }

  lemma SettleUntimed(s: Store, id: string, ref: Option<string>, now: int)
    ensures Untimed(Settle(Untimed(s), id, ref, now)) == Untimed(Settle(s, id, ref, now))
  {
    UntimedTwice(s);
    if id in s.intents && s.intents[id].status != Completed {
      SettleOpenUntimed(s, id, ref, now);
    }
  }

  function Paid(i: Intent, ref: Option<string>, now: int): Intent {
    i.(status := Completed, settled := Some(now), updated := now, ref := Or(ref, i.ref))
  }

  lemma SettleOpenUntimed(s: Store, id: string, ref: Option<string>, now: int)
    requires id in s.intents && s.intents[id].status != Completed
    ensures Untimed(Settle(Untimed(s), id, ref, now)) == Untimed(Settle(s, id, ref, now))
  {
    hide Last50, UntimedIntents, UntimedJobs;
    LookupUntimed(s, id);
    UntimedTwice(s);
    var u, i := Untimed(s), s.intents[id];
    LookupUntimed(s, i.job);
    var j := if i.job in s.jobs then Charged(s.jobs[i.job], ChargeFor(id, i, ref, now), now)
        else Job("", "", None, [], 0);
    PutUntimed(s.intents, s.jobs, id, Paid(i, ref, now), j);
    PutUntimed(u.intents, u.jobs, id, Paid(u.intents[id], ref, now), j);
    if i.job in s.jobs {
      var k := Charged(u.jobs[i.job], ChargeFor(id, u.intents[id], ref, now), now);
      assert UntimedJob(k) == UntimedJob(j);
      PutUntimed(s.intents, s.jobs, i.job, i, j);
      PutUntimed(u.intents, u.jobs, i.job, i, k);
    }
  }

  lemma LookupUntimed(s: Store, id: string)
    ensures id in Untimed(s).intents <==> id in s.intents
    ensures id in s.intents ==> Untimed(s).intents[id] == UntimedIntent(s.intents[id])
    ensures id in Untimed(s).jobs <==> id in s.jobs
    ensures id in s.jobs ==> Untimed(s).jobs[id] == UntimedJob(s.jobs[id])
  {
  }

  lemma MayInitiateUntimed(s: Store, e: Event)
    requires e.Initiate?
    ensures MayInitiate(Untimed(s), e) <==> MayInitiate(s, e)
  {
    assert OpenIds(Untimed(s).intents, e.job, e.user) == OpenIds(s.intents, e.job, e.user);
  }

  lemma InitiateUntimed(s: Store, e: Event)
    requires e.Initiate?
    ensures Untimed(Step(Untimed(s), e)) == Untimed(Step(s, e))
  {
    hide MayInitiate, UntimedIntents, UntimedJobs;
    MayInitiateUntimed(s, e);
    MayInitiateHasJob(s, e);
    UntimedTwice(s);
    if MayInitiate(s, e) {
      LookupUntimed(s, e.job);
      PutUntimed(s.intents, s.jobs, e.id, NewIntent(s, e), s.jobs[e.job]);
      PutUntimed(Untimed(s).intents, s.jobs, e.id, NewIntent(Untimed(s), e), s.jobs[e.job]);
    }
  }

  /** Any other change of one intent, as a function of it. */
  function Changed(i: Intent, e: Event): Intent {
    match e
    case Cancel(_, _, now) =>
      i.(status := Cancelled, reason := Some("user_cancelled"), settled := Some(now), updated := now)
    case Callback(_, status, reason, ref, now) =>
      i.(ref := Or(ref, i.ref), status := status, reason := if status == Failed then reason else None,
         settled := if status in {Failed, Cancelled, Expired} then Some(now) else i.settled, updated := now)
    case Fail(_, reason, now) => i.(status := Failed, reason := reason, settled := Some(now), updated := now)
    case _ => i
  }

  predicate Changes(intents: map<string, Intent>, e: Event) {
    && e.id in intents
    && (e.Cancel? ==> intents[e.id].user == e.user && Open(intents[e.id].status))
  }

  lemma StepChanges(s: Store, e: Event)
    requires !e.Initiate? && !IsCompletion(e)
    ensures Step(s, e) == if Changes(s.intents, e) then s.(intents := s.intents[e.id := Changed(s.intents[e.id], e)])
      else s
  {
  }

  lemma ChangeUntimed(s: Store, e: Event)
    requires !e.Initiate? && !IsCompletion(e)
    ensures Untimed(Step(Untimed(s), e)) == Untimed(Step(s, e))
  {
    hide UntimedIntents, UntimedJobs, Step;
    StepChanges(s, e);
    StepChanges(Untimed(s), e);
    UntimedTwice(s);
    LookupUntimed(s, e.id);
    if Changes(s.intents, e) {
      var job := Job("", "", None, [], 0);
      PutUntimed(s.intents, s.jobs, e.id, Changed(s.intents[e.id], e), job);
      PutUntimed(Untimed(s).intents, s.jobs, e.id, Changed(Untimed(s).intents[e.id], e), job);
    }
  }

  lemma StepUntimed(s: Store, e: Event)
    ensures Untimed(Step(Untimed(s), e)) == Untimed(Step(s, e))
  {
    hide Settle, MayInitiate, Untimed;
    if e.Initiate? {
      InitiateUntimed(s, e);
    } else if IsCompletion(e) {
      SettleUntimed(s, e.id, e.ref, e.now);
    } else {
      ChangeUntimed(s, e);
    }
  }

  lemma MayInitiateHasJob(s: Store, e: Event)
    requires e.Initiate?
    ensures MayInitiate(s, e) ==> e.job in s.jobs && e.job in Untimed(s).jobs
  {
  }

  ghost function DeliverUntimed(u: Store, d: Delivery): Store { Untimed(Deliver(u, d)) }

  lemma DeliverAgrees(s: Store, d: Delivery)
    ensures DeliverUntimed(Untimed(s), d) == Untimed(Deliver(s, d))
  {
    hide EventOf, Step, Untimed;
    EventUntimed(s, d);
    UntimedTwice(s);
    if EventOf(s, d).Some? {
      StepUntimed(s, EventOf(s, d).value);
    }
  }

  lemma UntimedTwice(s: Store)
    ensures Untimed(Untimed(s)) == Untimed(s)
  {
    var a, b := Untimed(Untimed(s)), Untimed(s);
    assert a.intents == b.intents;
    assert a.jobs == b.jobs;
  }

  lemma {:induction false} RunUntimed(s: Store, ds: seq<Delivery>, hits: seq<bool>)
    requires |hits| == |ds|
    ensures RunWith(DeliverUntimed, Untimed(s), ds, hits) == Untimed(RunWith(Deliver, s, ds, hits))
    ensures RunWithout(DeliverUntimed, Untimed(s), ds) == Untimed(RunWithout(Deliver, s, ds))
  {
    hide Deliver, DeliverUntimed, Untimed;
    if ds != [] {
      var n := |ds| - 1;
      RunUntimed(s, ds[..n], hits[..n]);
      DeliverAgrees(RunWith(Deliver, s, ds[..n], hits[..n]), ds[n]);
      DeliverAgrees(RunWithout(Deliver, s, ds[..n]), ds[n]);
    }
  }

  lemma RememberedUntimed(s: Store, ds: seq<Delivery>, hits: seq<bool>, i: nat)
    requires |hits| == |ds| && i < |ds|
    ensures Remembered(DeliverUntimed, Keeps, Untimed(s), ds, hits, i) <==> Remembered(Deliver, Keeps, s, ds, hits, i)
    ensures Repeated(DeliverUntimed, Keeps, Untimed(s), ds, i) <==> Repeated(Deliver, Keeps, s, ds, i)
  {
    hide RunWith, RunWithout, Keeps, Untimed, SameEvent;
    forall j | 0 <= j < i
      ensures Keeps(RunWith(DeliverUntimed, Untimed(s), ds[..j], hits[..j]), ds[j])
        == Keeps(RunWith(Deliver, s, ds[..j], hits[..j]), ds[j])
      ensures Keeps(RunWithout(DeliverUntimed, Untimed(s), ds[..j]), ds[j])
        == Keeps(RunWithout(Deliver, s, ds[..j]), ds[j])
    {
      RunUntimed(s, ds[..j], hits[..j]);
      EventUntimed(RunWith(Deliver, s, ds[..j], hits[..j]), ds[j]);
      EventUntimed(RunWithout(Deliver, s, ds[..j]), ds[j]);
    }
  }

  lemma SoundUntimed(s: Store, ds: seq<Delivery>, hits: seq<bool>)
    requires |hits| == |ds|
    ensures SoundHits(DeliverUntimed, Keeps, Untimed(s), ds, hits) <==> SoundHits(Deliver, Keeps, s, ds, hits)
  {
    hide Remembered, Untimed;
    forall i | 0 <= i < |ds|
      ensures Remembered(DeliverUntimed, Keeps, Untimed(s), ds, hits, i) <==> Remembered(Deliver, Keeps, s, ds, hits, i)
    {
      RememberedUntimed(s, ds, hits, i);
    }
  }

  // ---------------------------------------------------------------- when the answers cannot matter

  predicate Done(s: Store, id: string) { id in s.intents && s.intents[id].status == Completed }

  /**
   * The intent is already as the message would leave it: paid, or in the reported state with the same reason and
   * reference.
   */
  ghost predicate AlreadyDone(s: Store, d: Delivery) {
    match EventOf(s, d)
    case None => true
    case Some(e) =>
      match e
      case Complete(id, _, _) => Done(s, id)
      case Callback(id, status, reason, ref, _) =>
        if status == Completed then Done(s, id)
        else
          && id in s.intents && s.intents[id].status == status
          && s.intents[id].reason == (if status == Failed then reason else None)
          && s.intents[id].ref == Or(ref, s.intents[id].ref)
      case Fail(id, reason, _) => id in s.intents && s.intents[id].status == Failed && s.intents[id].reason == reason
      case _ => false
  }

  lemma LatestExists(intents: map<string, Intent>, matches: set<string>)
    ensures LatestOne(intents, matches).Some? ==> LatestOne(intents, matches).value in intents
  {
  }

  lemma FoundExists(s: Store, d: Delivery)
    requires !d.Direct? && EventOf(s, d).Some?
    ensures EventOf(s, d).value.id in s.intents
    ensures var e := EventOf(s, d).value; e.Complete? || e.Callback? || e.Fail?
  {
    hide LatestOne, ParseStatus, NormalizeStatus;
    if d.Mobile? && Named(d.mobile.ref) {
      LatestExists(s.intents, WithRef(s.intents, d.mobile.ref.value));
    } else if d.Stripe? {
      if Named(d.stripe.session) {
        LatestExists(s.intents, WithRef(s.intents, d.stripe.session.value));
      }
      if Named(d.stripe.job) {
        LatestExists(s.intents, OfJob(s.intents, d.stripe.job.value));
      }
    }
  }

  lemma SettleIdle(s: Store, id: string, ref: Option<string>, now: int)
    requires id in s.intents
    ensures Untimed(Settle(s, id, ref, now)) == Untimed(s) <==> Done(s, id)
  {
    hide Last50;
    assert Untimed(s).intents[id].status == s.intents[id].status;
    assert Untimed(Settle(s, id, ref, now)).intents[id].status == Completed;
  }

  lemma StepIdle(s: Store, e: Event)
    requires (e.Callback? && e.status != Completed) || e.Fail?
    requires e.id in s.intents
    ensures Untimed(Step(s, e)) == Untimed(s)
      <==> && s.intents[e.id].status == (if e.Fail? then Failed else e.status)
           && s.intents[e.id].reason == (if e.Fail? || e.status == Failed then e.reason else None)
           && (e.Callback? ==> s.intents[e.id].ref == Or(e.ref, s.intents[e.id].ref))
  {
    var a, b := Untimed(Step(s, e)), Untimed(s);
    assert a.intents[e.id] == UntimedIntent(Step(s, e).intents[e.id])
      && b.intents[e.id] == UntimedIntent(s.intents[e.id]);
    assert a.jobs == b.jobs;
    if a.intents[e.id] == b.intents[e.id] {
      assert a.intents == b.intents;
    }
  }

  /** A message changes nothing but times exactly when its intent is already as it says. */
  lemma AlreadyDoneExactly(s: Store, d: Delivery)
    requires !d.Direct?
    ensures DeliverUntimed(Untimed(s), d) == Untimed(s) <==> AlreadyDone(s, d)
  {
    hide EventOf, Step, Settle, Untimed;
    DeliverAgrees(s, d);
    if EventOf(s, d).Some? {
      var e := EventOf(s, d).value;
      FoundExists(s, d);
      CompletionSettles(s, e);
      if IsCompletion(e) {
        SettleIdle(s, e.id, e.ref, e.now);
      } else {
        StepIdle(s, e);
      }
    }
  }

  lemma CompletionSettles(s: Store, e: Event)
    ensures IsCompletion(e) ==> Step(s, e) == Settle(s, e.id, e.ref, e.now)
  {
  }

  ghost predicate SameButTimes(a: Store, b: Store) { Untimed(a) == Untimed(b) }

  ghost predicate AgreesButTimes(s: Store, ds: seq<Delivery>, hits: seq<bool>, k: nat)
    requires |hits| == |ds| && k <= |ds|
  {
    SameButTimes(RunWith(Deliver, s, ds[..k], hits[..k]), RunWithout(Deliver, s, ds[..k]))
  }

  lemma AgreesUntimed(s: Store, ds: seq<Delivery>, hits: seq<bool>, k: nat)
    requires |hits| == |ds| && k <= |ds|
    ensures AgreesButTimes(s, ds, hits, k) <==> AgreesAt(DeliverUntimed, Untimed(s), ds, hits, k)
  {
    hide RunWith, RunWithout, Untimed;
    RunUntimed(s, ds[..k], hits[..k]);
  }

  lemma IdleUntimed(s: Store, ds: seq<Delivery>, i: nat)
    requires i < |ds| && Repeated(Deliver, Keeps, s, ds, i)
    ensures Idle(DeliverUntimed, Untimed(s), ds, i) <==> AlreadyDone(RunWithout(Deliver, s, ds[..i]), ds[i])
  {
    hide RunWithout, Untimed, AlreadyDone, DeliverUntimed;
    RunUntimed(s, ds[..i], OnlyAt(i, i));
    AlreadyDoneExactly(RunWithout(Deliver, s, ds[..i]), ds[i]);
  }

  /**
   * Up to the times of the last change, every prefix of the run ends the same whatever the two caches
   * remember or forget, if and only if every repeated message finds its intent already as it says.
   */
  lemma ReplayCachesExactly(s: Store, ds: seq<Delivery>)
    ensures (forall hits, k :: |hits| == |ds| && SoundHits(Deliver, Keeps, s, ds, hits) && 0 <= k <= |ds| ==>
               AgreesButTimes(s, ds, hits, k))
      <==> (forall i :: 0 <= i < |ds| && Repeated(Deliver, Keeps, s, ds, i) ==>
              AlreadyDone(RunWithout(Deliver, s, ds[..i]), ds[i]))
  {
    hide SoundHits, Repeated, AgreesAt, AgreesButTimes, Untimed, AlreadyDone, Idle;
    NeverMattersExactly(DeliverUntimed, Keeps, Untimed(s), ds);
    forall hits, k | |hits| == |ds| && 0 <= k <= |ds|
      ensures SoundHits(DeliverUntimed, Keeps, Untimed(s), ds, hits) <==> SoundHits(Deliver, Keeps, s, ds, hits)
      ensures AgreesButTimes(s, ds, hits, k) <==> AgreesAt(DeliverUntimed, Untimed(s), ds, hits, k)
    {
      SoundUntimed(s, ds, hits);
      AgreesUntimed(s, ds, hits, k);
    }
    forall i | 0 <= i < |ds|
      ensures Repeated(DeliverUntimed, Keeps, Untimed(s), ds, i) <==> Repeated(Deliver, Keeps, s, ds, i)
      ensures Repeated(Deliver, Keeps, s, ds, i) ==>
        (Idle(DeliverUntimed, Untimed(s), ds, i) <==> AlreadyDone(RunWithout(Deliver, s, ds[..i]), ds[i]))
    {
      RememberedUntimed(s, ds, OnlyAt(|ds|, i), i);
      if Repeated(Deliver, Keeps, s, ds, i) {
        IdleUntimed(s, ds, i);
      }
    }
  }

  // ---------------------------------------------------------------- completions

  /** New intents get new ids, and nothing takes a completed intent back. */
  predicate CalmEvent(s: Store, e: Event) {
    (e.Initiate? ==> e.id !in s.intents) && (e.Fail? || (e.Callback? && e.status != Completed) ==> !Done(s, e.id))
  }

  ghost predicate CalmDelivery(s: Store, d: Delivery) {
    match EventOf(s, d)
    case None => true
    case Some(e) => CalmEvent(s, e)
  }

  ghost predicate Calm(s: Store, ds: seq<Delivery>) {
    ds == [] || (Calm(s, ds[..|ds| - 1]) && CalmDelivery(RunWithout(Deliver, s, ds[..|ds| - 1]), ds[|ds| - 1]))
  }

  /** A completion that names its intent by id. */
  predicate CompletesById(d: Delivery, id: string) {
    match d
    case Mobile(m, _) => m.id == Some(id) && id != "" && NormalizeStatus(m.status) == "completed"
    case Stripe(m, _) => m.id == Some(id) && id != "" && m.kind == Succeeded
    case Direct(_) => false
  }

  /** The copies of a message complete, by id, the intent the first of them found. */
  ghost predicate CopiesComplete(s: Store, ds: seq<Delivery>) {
    forall i, j :: 0 <= j < i < |ds| && SameEvent(ds[j], ds[i]) ==>
      CopyCompletes(RunWithout(Deliver, s, ds[..j]), ds[j], ds[i])
  }

  ghost predicate CopyCompletes(s: Store, first: Delivery, copy: Delivery) {
    exists id :: CompletesById(first, id) && CompletesById(copy, id) && id in s.intents
  }

  lemma DoneStays(s: Store, d: Delivery, id: string)
    requires CalmDelivery(s, d) && Done(s, id)
    ensures Done(Deliver(s, d), id)
  {
    hide Last50, NewIntent, EventOf;
  }

  lemma {:induction false} DoneForGood(s: Store, ds: seq<Delivery>, j: nat, id: string)
    requires Calm(s, ds) && j <= |ds| && Done(RunWithout(Deliver, s, ds[..j]), id)
    ensures Done(RunWithout(Deliver, s, ds), id)
  {
    hide CalmDelivery, Done, Deliver;
    if j == |ds| {
      assert ds[..j] == ds;
    } else {
      var front := ds[..|ds| - 1];
      assert front[..j] == ds[..j];
      DoneForGood(s, front, j, id);
      DoneStays(RunWithout(Deliver, s, front), ds[|ds| - 1], id);
    }
  }

  lemma {:induction false} CalmPrefix(s: Store, ds: seq<Delivery>, k: nat)
    requires Calm(s, ds) && k <= |ds|
    ensures Calm(s, ds[..k])
  {
    if k == |ds| {
      assert ds[..k] == ds;
    } else {
      CalmPrefix(s, ds[..|ds| - 1], k);
      assert ds[..|ds| - 1][..k] == ds[..k];
    }
  }

  /** A completion by id completes its intent, and changes nothing if that was completed before. */
  lemma CompletionDone(s: Store, d: Delivery, id: string)
    requires CompletesById(d, id) && id in s.intents
    ensures Done(Deliver(s, d), id) && (Done(s, id) ==> Deliver(s, d) == s)
  {
    hide Last50, NormalizeStatus, LatestOne;
  }

  lemma CompletionCopyIdle(s: Store, ds: seq<Delivery>, j: nat, i: nat)
    requires Calm(s, ds) && j < i < |ds| && CopyCompletes(RunWithout(Deliver, s, ds[..j]), ds[j], ds[i])
    ensures Idle(Deliver, s, ds, i)
  {
    hide CompletesById, Done, Deliver, CalmDelivery;
    var id :| CompletesById(ds[j], id) && CompletesById(ds[i], id) && id in RunWithout(Deliver, s, ds[..j]).intents;
    CompletionDone(RunWithout(Deliver, s, ds[..j]), ds[j], id);
    assert ds[..j + 1][..j] == ds[..j];
    CalmPrefix(s, ds, i);
    assert ds[..i][..j + 1] == ds[..j + 1];
    DoneForGood(s, ds[..i], j + 1, id);
    DoneMeans(RunWithout(Deliver, s, ds[..i]), id);
    CompletionDone(RunWithout(Deliver, s, ds[..i]), ds[i], id);
  }

  lemma DoneMeans(s: Store, id: string)
    ensures Done(s, id) ==> id in s.intents
  {
  }

  /**
   * Calm runs in which only completions by id come more than once: the whole store, with every job, every
   * intent and every time, ends the same whether the caches remember, forget or are off.
   */
  lemma ReplayCacheCannotMatter(s: Store, ds: seq<Delivery>, hits: seq<bool>)
    requires |hits| == |ds| && Calm(s, ds) && CopiesComplete(s, ds) && SoundHits(Deliver, Keeps, s, ds, hits)
    ensures RunWith(Deliver, s, ds, hits) == RunWithout(Deliver, s, ds)
  {
    hide Calm, SoundHits, RunWith, RunWithout, SameEvent, CopyCompletes, Idle;
    forall i | 0 <= i < |ds| && Repeated(Deliver, Keeps, s, ds, i) ensures Idle(Deliver, s, ds, i) {
      var j :| 0 <= j < i && SameEvent(ds[j], ds[i]) && Keeps(RunWithout(Deliver, s, ds[..j]), ds[j]);
      CompletionCopyIdle(s, ds, j, i);
    }
    IdleCopiesAgree(Deliver, Keeps, s, ds, hits, |ds|);
    assert AgreesAt(Deliver, s, ds, hits, |ds|);
    assert ds[..|ds|] == ds && hits[..|ds|] == hits;
  }

  // ---------------------------------------------------------------- when they do

  lemma ThreeDeliveries(s: Store, a: Delivery, b: Delivery, c: Delivery)
    ensures RunWith(Deliver, s, [a, b, c], [false, false, true]) == Deliver(Deliver(s, a), b)
    ensures RunWithout(Deliver, s, [a, b, c]) == Deliver(Deliver(Deliver(s, a), b), c)
  {
    hide Deliver;
    assert [a, b, c][..2] == [a, b] && [a, b][..1] == [a] && [a][..0] == [];
    assert [false, false, true][..2] == [false, false] && [false, false][..1] == [false];
    assert RunWithout(Deliver, s, [a]) == Deliver(s, a);
    assert RunWith(Deliver, s, [a], [false]) == Deliver(s, a);
    assert RunWith(Deliver, s, [a, b], [false, false]) == Deliver(RunWith(Deliver, s, [a], [false]), b);
  }

  lemma CopyIsSound(s: Store, a: Delivery, b: Delivery)
    requires BoxOf(a).Some? && KeyOf(a) != "" && Keeps(s, a)
    ensures SoundHits(Deliver, Keeps, s, [a, b, a], [false, false, true])
  {
    hide Keeps;
    var ds, hits := [a, b, a], [false, false, true];
    assert ds[..0] == [] && ds[0] == a && SameEvent(ds[0], ds[2]);
    assert RunWith(Deliver, s, ds[..0], hits[..0]) == s;
    assert Remembered(Deliver, Keeps, s, ds, hits, 2);
  }

  lemma MobileNames(s: Store, m: MobileMessage, now: int, status: Status)
    requires Named(m.id) && m.id.value in s.intents && ParseStatus(NormalizeStatus(m.status)) == Some(status)
    ensures EventOf(s, Mobile(m, now)) == Some(MobileEvent(m, m.id.value, status, now)) && Keeps(s, Mobile(m, now))
  {
  }

  /**
   * A callback says "pending", the owner cancels, and a copy of the callback arrives: remembered, it leaves
   * the intent cancelled; forgotten, it opens the intent again.
   */
  lemma CopyReopens(s: Store, m: MobileMessage, now: int)
    requires m.key != "" && Named(m.id) && m.id.value in s.intents && Open(s.intents[m.id.value].status)
    requires ParseStatus(NormalizeStatus(m.status)) == Some(Pending)
    ensures var id := m.id.value;
      var ds := [Mobile(m, now), Direct(Cancel(id, s.intents[id].user, now)), Mobile(m, now)];
      && SoundHits(Deliver, Keeps, s, ds, [false, false, true])
      && id in RunWith(Deliver, s, ds, [false, false, true]).intents && id in RunWithout(Deliver, s, ds).intents
      && RunWith(Deliver, s, ds, [false, false, true]).intents[id].status == Cancelled
      && RunWithout(Deliver, s, ds).intents[id].status == Pending
  {
    hide RunWith, RunWithout, SoundHits, EventOf, Keeps, ParseStatus, NormalizeStatus;
    var id := m.id.value;
    var a, b := Mobile(m, now), Direct(Cancel(id, s.intents[id].user, now));
    MobileNames(s, m, now, Pending);
    CopyIsSound(s, a, b);
    ThreeDeliveries(s, a, b, a);
    var s1 := Deliver(s, a);
    assert s1.intents[id].status == Pending && s1.intents[id].user == s.intents[id].user;
    DirectIs(s1, b.event);
    var s2 := Deliver(s1, b);
    MobileNames(s2, m, now, Pending);
  }

  lemma DirectIs(s: Store, e: Event)
    ensures Deliver(s, Direct(e)) == Step(s, e)
  {
  }

  /** With a failure report between two copies of a completion, the job is charged once or twice. */
  lemma FailureInBetween(s: Store, m: MobileMessage, job: string, now: int)
    requires m.key != "" && Named(m.id) && m.id.value in s.intents && s.intents[m.id.value].job == job
    requires ParseStatus(NormalizeStatus(m.status)) == Some(Completed) && s.intents[m.id.value].status == Pending
    requires job in s.jobs && s.jobs[job].history == []
    ensures var ds := [Mobile(m, now), Direct(Fail(m.id.value, None, now)), Mobile(m, now)];
      && SoundHits(Deliver, Keeps, s, ds, [false, false, true])
      && job in RunWith(Deliver, s, ds, [false, false, true]).jobs && job in RunWithout(Deliver, s, ds).jobs
      && |RunWith(Deliver, s, ds, [false, false, true]).jobs[job].history| == 1
      && |RunWithout(Deliver, s, ds).jobs[job].history| == 2
  {
    hide RunWith, RunWithout, SoundHits, EventOf, Keeps, ParseStatus, NormalizeStatus;
    var id := m.id.value;
    var a, b := Mobile(m, now), Direct(Fail(id, None, now));
    MobileNames(s, m, now, Completed);
    CopyIsSound(s, a, b);
    ThreeDeliveries(s, a, b, a);
    var s1 := Deliver(s, a);
    assert s1.jobs[job].history == [ChargeFor(id, s.intents[id], m.ref, now)];
    DirectIs(s1, b.event);
    var s2 := Deliver(s1, b);
    assert s2.jobs == s1.jobs && s2.intents[id].status == Failed && s2.intents[id].job == job;
    MobileNames(s2, m, now, Completed);
  }

  // ---------------------------------------------------------------- the real caches give such answers

  /** The calls a delivery makes to a cache: ask, and add if not reported and not refused by the database. */
  ghost function Calls(box: Box, before: Store, d: Delivery, hit: bool): seq<RC.Op> {
    if BoxOf(d) != Some(box) then []
    else if hit then [RC.Op.Ask(KeyOf(d), d.at, true)]
    else [RC.Op.Ask(KeyOf(d), d.at, false)] + if Keeps(before, d) then [RC.Op.Add(KeyOf(d), d.at)] else []
  }

  /** All calls to one of the caches in a run. */
  ghost function Log(box: Box, s: Store, ds: seq<Delivery>, hits: seq<bool>): seq<RC.Op>
    requires |hits| == |ds|
  {
    if ds == [] then []
    else
      var n := |ds| - 1;
      Log(box, s, ds[..n], hits[..n]) + Calls(box, RunWith(Deliver, s, ds[..n], hits[..n]), ds[n], hits[n])
  }

  ghost predicate GivenAt(box: Box, s: Store, ds: seq<Delivery>, hits: seq<bool>, key: string, j: nat)
    requires |hits| == |ds| && j < |ds|
  {
    BoxOf(ds[j]) == Some(box) && KeyOf(ds[j]) == key && !hits[j]
      && Keeps(RunWith(Deliver, s, ds[..j], hits[..j]), ds[j])
  }

  lemma {:induction false} AddedBefore(box: Box, s: Store, ds: seq<Delivery>, hits: seq<bool>, key: string)
    returns (j: nat)
    requires |hits| == |ds| && RC.WasAdded(Log(box, s, ds, hits), key)
    ensures j < |ds| && GivenAt(box, s, ds, hits, key, j)
  {
    hide RunWith, Keeps;
    var n := |ds| - 1;
    var front, rest: seq<RC.Op> := Log(box, s, ds[..n], hits[..n]),
        Calls(box, RunWith(Deliver, s, ds[..n], hits[..n]), ds[n], hits[n]);
    var log: seq<RC.Op> := front + rest;
    var i :| 0 <= i < |log| && log[i].Add? && log[i].key == key;
    if i < |front| {
      assert front[i] == log[i];
      j := AddedBefore(box, s, ds[..n], hits[..n], key);
      assert ds[..n][..j] == ds[..j] && hits[..n][..j] == hits[..j];
    } else {
      j := n;
      assert log[i] == rest[i - |front|];
    }
  }

  lemma {:induction false} LogPrefix(box: Box, s: Store, ds: seq<Delivery>, hits: seq<bool>, k: nat)
    requires |hits| == |ds| && k <= |ds|
    ensures Log(box, s, ds[..k], hits[..k]) <= Log(box, s, ds, hits)
  {
    hide Calls, RunWith;
    var n := |ds|;
    if k == n {
      assert ds[..n] == ds && hits[..n] == hits;
    } else {
      LogPrefix(box, s, ds[..n - 1], hits[..n - 1], k);
      assert ds[..n - 1][..k] == ds[..k] && hits[..n - 1][..k] == hits[..k];
    }
  }

  lemma LogAt(box: Box, s: Store, ds: seq<Delivery>, hits: seq<bool>, i: nat)
    requires |hits| == |ds| && i < |ds| && BoxOf(ds[i]) == Some(box)
    ensures var p := |Log(box, s, ds[..i], hits[..i])|;
      && p < |Log(box, s, ds, hits)| && Log(box, s, ds, hits)[p] == RC.Op.Ask(KeyOf(ds[i]), ds[i].at, hits[i])
      && Log(box, s, ds, hits)[..p] == Log(box, s, ds[..i], hits[..i])
  {
    hide RunWith, Keeps;
    LogPrefix(box, s, ds, hits, i);
    LogPrefix(box, s, ds, hits, i + 1);
    assert ds[..i + 1][..i] == ds[..i] && hits[..i + 1][..i] == hits[..i];
  }

  lemma HitIsRemembered(limits: RC.Limits, box: Box, s: Store, ds: seq<Delivery>, hits: seq<bool>,
      states: seq<RC.Entries>, i: nat)
    requires |hits| == |ds| && RC.IsRun(limits, Log(box, s, ds, hits), states)
    requires i < |ds| && BoxOf(ds[i]) == Some(box) && hits[i]
    ensures Remembered(Deliver, Keeps, s, ds, hits, i)
  {
    hide Log, RC.IsRun, RC.WasAdded, RC.Young, RunWith, Keeps;
    LogAt(box, s, ds, hits, i);
    var p := |Log(box, s, ds[..i], hits[..i])|;
    RC.CacheGuarantees(limits, Log(box, s, ds, hits), states, p);
    RC.RunStep(limits, Log(box, s, ds, hits), states, p);
    var j := AddedBefore(box, s, ds[..i], hits[..i], KeyOf(ds[i]));
    assert ds[..i][..j] == ds[..j] && hits[..i][..j] == hits[..j];
    assert SameEvent(ds[j], ds[i]);
  }

  /** Whatever their limits, the two in-process caches report only keys of earlier deliveries. */
  lemma CachesAreSound(mobile: RC.Limits, stripe: RC.Limits, s: Store, ds: seq<Delivery>, hits: seq<bool>,
    mobileStates: seq<RC.Entries>, stripeStates: seq<RC.Entries>)
    requires |hits| == |ds| && forall i :: 0 <= i < |ds| && hits[i] ==> !ds[i].Direct?
    requires RC.IsRun(mobile, Log(MobileBox, s, ds, hits), mobileStates)
    requires RC.IsRun(stripe, Log(StripeBox, s, ds, hits), stripeStates)
    ensures SoundHits(Deliver, Keeps, s, ds, hits)
  {
    hide Log, RC.IsRun, Remembered;
    forall i | 0 <= i < |ds| && hits[i] ensures Remembered(Deliver, Keeps, s, ds, hits, i) {
      if ds[i].Mobile? {
        HitIsRemembered(mobile, MobileBox, s, ds, hits, mobileStates, i);
      } else {
        HitIsRemembered(stripe, StripeBox, s, ds, hits, stripeStates, i);
      }
    }
  }

  // ---------------------------------------------------------------- copies the real caches do drop

  /** The other keys delivered to a handler from delivery `from` up to, not including, delivery `to`. */
  function OtherKeys(box: Box, ds: seq<Delivery>, key: string, from: nat, to: nat): set<string>
    requires to <= |ds|
  {
    set k | from <= k < to && BoxOf(ds[k]) == Some(box) && KeyOf(ds[k]) != key :: KeyOf(ds[k])
  }

  /** What the log of a cache says of a key: added no earlier than `t`, and only the given keys touched since. */
  ghost predicate Fresh(log: seq<RC.Op>, key: string, t: int, others: set<string>) {
    RC.WasAdded(log, key) && RC.LastAdd(log, key) >= t && RC.Since(log, key) <= others
  }

  lemma FreshStep(log: seq<RC.Op>, op: RC.Op, key: string, t: int, others: set<string>)
    requires key != "" && op.time >= t
    requires Fresh(log, key, t, others) || (op.Add? && op.key == key)
    ensures Fresh(log + [op], key, t, others + if op.key == key then {} else {op.key})
  {
    hide RC.WasAdded, RC.LastAdd, RC.Since;
    RC.LogStep(log, op, key);
  }

  lemma CallsFresh(box: Box, log: seq<RC.Op>, before: Store, d: Delivery, hit: bool, key: string, t: int,
      others: set<string>)
    requires key != "" && BoxOf(d) == Some(box) && d.at >= t
    requires Fresh(log, key, t, others) || (!hit && Keeps(before, d) && KeyOf(d) == key)
    ensures Fresh(log + Calls(box, before, d, hit), key, t, others + if KeyOf(d) == key then {} else {KeyOf(d)})
  {
    hide Keeps, Fresh;
    var ask, add := RC.Op.Ask(KeyOf(d), d.at, hit), RC.Op.Add(KeyOf(d), d.at);
    var more := others + if KeyOf(d) == key then {} else {KeyOf(d)};
    if Fresh(log, key, t, others) {
      FreshStep(log, ask, key, t, others);
    }
    if !hit && Keeps(before, d) {
      FreshStep(log + [ask], add, key, t, more);
      assert log + Calls(box, before, d, hit) == log + [ask] + [add];
      assert more + (if KeyOf(d) == key then {} else {KeyOf(d)}) == more;
    } else {
      assert log + Calls(box, before, d, hit) == log + [ask];
    }
  }

  /** After an accepted delivery its key is fresh, up to the other keys delivered since. */
  lemma {:induction false} FreshAfter(box: Box, s: Store, ds: seq<Delivery>, hits: seq<bool>, j: nat, n: nat)
    requires |hits| == |ds| && j < n <= |ds| && KeyOf(ds[j]) != "" && GivenAt(box, s, ds, hits, KeyOf(ds[j]), j)
    requires forall k :: j <= k < n && BoxOf(ds[k]) == Some(box) ==> ds[k].at >= ds[j].at
    ensures Fresh(Log(box, s, ds[..n], hits[..n]), KeyOf(ds[j]), ds[j].at, OtherKeys(box, ds, KeyOf(ds[j]), j, n))
  {
    hide Calls, RunWith, Keeps, Fresh;
    var key, m := KeyOf(ds[j]), n - 1;
    var before := RunWith(Deliver, s, ds[..m], hits[..m]);
    var others := OtherKeys(box, ds, key, j, m);
    assert ds[..n][..m] == ds[..m] && hits[..n][..m] == hits[..m];
    assert OtherKeys(box, ds, key, j, n)
      == others + if BoxOf(ds[m]) == Some(box) && KeyOf(ds[m]) != key then {KeyOf(ds[m])} else {};
    if j < m {
      FreshAfter(box, s, ds, hits, j, m);
    }
    if BoxOf(ds[m]) == Some(box) {
      CallsFresh(box, Log(box, s, ds[..m], hits[..m]), before, ds[m], hits[m], key, ds[j].at, others);
    } else {
      NoCalls(box, before, ds[m], hits[m]);
      assert others + {} == others && Log(box, s, ds[..m], hits[..m]) + [] == Log(box, s, ds[..m], hits[..m]);
    }
  }

  lemma NoCalls(box: Box, before: Store, d: Delivery, hit: bool)
    requires BoxOf(d) != Some(box)
    ensures Calls(box, before, d, hit) == []
  {
  }

  /** Deliveries to one handler come in the order of their times. */
  lemma InTime(limits: RC.Limits, box: Box, s: Store, ds: seq<Delivery>, hits: seq<bool>, states: seq<RC.Entries>,
      j: nat, k: nat)
    requires |hits| == |ds| && RC.IsRun(limits, Log(box, s, ds, hits), states)
    requires j <= k < |ds| && BoxOf(ds[j]) == BoxOf(ds[k]) == Some(box)
    ensures ds[j].at <= ds[k].at
  {
    hide Log, RC.IsRun;
    LogAt(box, s, ds, hits, j);
    LogAt(box, s, ds, hits, k);
    LogPrefix(box, s, ds[..k], hits[..k], j);
    assert ds[..k][..j] == ds[..j] && hits[..k][..j] == hits[..j];
    var p, q := |Log(box, s, ds[..j], hits[..j])|, |Log(box, s, ds[..k], hits[..k])|;
    RC.RunInTime(limits, Log(box, s, ds, hits), states, p, q);
  }

  /**
   * A copy that comes less than the time to live after an accepted delivery of its event, with fewer than the
   * limit of other events of the handler in between, is dropped in every run of the in-process cache.
   */
  lemma CopyDropped(limits: RC.Limits, box: Box, s: Store, ds: seq<Delivery>, hits: seq<bool>, states: seq<RC.Entries>,
      j: nat, i: nat)
    requires |hits| == |ds| && RC.IsRun(limits, Log(box, s, ds, hits), states)
    requires j < i < |ds| && SameEvent(ds[j], ds[i]) && GivenAt(box, s, ds, hits, KeyOf(ds[j]), j)
    requires ds[i].at - ds[j].at < limits.ttl && |OtherKeys(box, ds, KeyOf(ds[j]), j, i)| < limits.max
    ensures hits[i] && RunWith(Deliver, s, ds[..i + 1], hits[..i + 1]) == RunWith(Deliver, s, ds[..i], hits[..i])
  {
    hide Log, RC.IsRun, RC.WasAdded, RC.LastAdd, RC.Since, RunWith, Keeps, OtherKeys;
    var key := KeyOf(ds[j]);
    forall k | j <= k < i && BoxOf(ds[k]) == Some(box) ensures ds[k].at >= ds[j].at {
      InTime(limits, box, s, ds, hits, states, j, k);
    }
    FreshAfter(box, s, ds, hits, j, i);
    LogAt(box, s, ds, hits, i);
    var p := |Log(box, s, ds[..i], hits[..i])|;
    RC.Subset(RC.Since(Log(box, s, ds[..i], hits[..i]), key), OtherKeys(box, ds, key, j, i));
    RC.CacheGuarantees(limits, Log(box, s, ds, hits), states, p);
    RunStep(Deliver, s, ds, hits, i);
  }
}
