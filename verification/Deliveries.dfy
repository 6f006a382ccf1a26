/** Callbacks, Stripe events and other changes in one run, with arbitrary answers of the replay caches. */
module Deliveries {
  import opened Text
  import opened Payments

  // ---------------------------------------------------------------- the intent a message finds

  ghost function Newest(intents: map<string, Intent>, matches: set<string>): set<string> {
    set id | id in matches && id in intents
      && forall other :: other in matches && other in intents ==> intents[other].created <= intents[id].created
  }

  /** The database's choice among intents made at the same time: arbitrary, but the same for the same intents. */
  ghost function Pick(ids: set<string>): (id: string)
    requires ids != {}
    ensures id in ids
  {
    var id :| id in ids;
    id
  }

  ghost function LatestOne(intents: map<string, Intent>, matches: set<string>): Option<string> {
    if Newest(intents, matches) == {} then None else Some(Pick(Newest(intents, matches)))
  }

  lemma {:induction false} HasNewest(intents: map<string, Intent>, matches: set<string>) returns (top: string)
    requires matches != {} && matches <= intents.Keys
    ensures top in matches && top in intents
    ensures forall id :: id in matches ==> intents[id].created <= intents[top].created
  {
    var some :| some in matches;
    var rest := matches - {some};
    assert forall id :: id in matches ==> id == some || id in rest;
    if rest == {} {
      top := some;
    } else {
      var other := HasNewest(intents, rest);
      top := if intents[some].created < intents[other].created then other else some;
    }
  }

  lemma LatestOneIs(intents: map<string, Intent>, matches: set<string>)
    requires matches <= intents.Keys
    ensures Latest(intents, matches, LatestOne(intents, matches))
  {
    if matches != {} {
      var top := HasNewest(intents, matches);
      assert top in Newest(intents, matches);
    }
  }

  ghost function FindMobile(intents: map<string, Intent>, m: MobileMessage): Option<string> {
    if Named(m.id) && m.id.value in intents then m.id
    else if Named(m.ref) then LatestOne(intents, WithRef(intents, m.ref.value))
    else None
  }

  ghost function FindStripe(intents: map<string, Intent>, m: StripeMessage): Option<string> {
    if Named(m.id) && m.id.value in intents then m.id
    else if Named(m.session) && WithRef(intents, m.session.value) != {} then
      LatestOne(intents, WithRef(intents, m.session.value))
    else if Named(m.job) then LatestOne(intents, OfJob(intents, m.job.value))
    else None
  }

  // ---------------------------------------------------------------- deliveries

  /** A mobile-money callback, a Stripe event, or any change that asks no replay cache. */
  datatype Delivery = Mobile(mobile: MobileMessage, at: int) | Stripe(stripe: StripeMessage, at: int)
    | Direct(event: Event)

  /** Each handler has a cache of its own. */
  datatype Box = MobileBox | StripeBox

  function BoxOf(d: Delivery): Option<Box> {
    if d.Mobile? then Some(MobileBox) else if d.Stripe? then Some(StripeBox) else None
  }

  function KeyOf(d: Delivery): string { if d.Mobile? then d.mobile.key else if d.Stripe? then d.stripe.key else "" }

  /** What the delivery does to the store it meets. */
  ghost function EventOf(s: Store, d: Delivery): Option<Event> {
    match d
    case Mobile(m, now) =>
      var found, status := FindMobile(s.intents, m), ParseStatus(NormalizeStatus(m.status));
      if found.Some? && status.Some? then Some(MobileEvent(m, found.value, status.value, now)) else None
    case Stripe(m, now) =>
      var found := FindStripe(s.intents, m);
      if found.None? || m.kind == Unrelated then None
      else if m.kind == Succeeded then Some(Complete(found.value, m.session, now))
      else Some(Fail(found.value, Some(if Named(m.outcome) then m.outcome.value else "async_payment_failed"), now))
    case Direct(e) => Some(e)
  }

  ghost function Deliver(s: Store, d: Delivery): Store {
    match EventOf(s, d)
    case None => s
    case Some(e) => Step(s, e)
  }

  /** Whether the handler gives the key to its cache: not after a status the database refused. */
  ghost predicate Keeps(s: Store, d: Delivery) {
    match d
    case Mobile(m, _) => FindMobile(s.intents, m).None? || ParseStatus(NormalizeStatus(m.status)).Some?
    case Stripe(_, _) => true
    case Direct(_) => false
  }

  /** A delivery finds and does what the handlers do with a message their cache does not report. */
  lemma DeliversAsHandlers(s: Store, mobile: MobileMessage, stripe: StripeMessage, now: int)
    ensures FoundByIdOrRef(s.intents, mobile.id, mobile.ref, FindMobile(s.intents, mobile))
    ensures FoundFromSession(s.intents, stripe.id, stripe.session, stripe.job, FindStripe(s.intents, stripe))
    ensures Deliver(s, Mobile(mobile, now)) == MobileStep(s, mobile, FindMobile(s.intents, mobile), now)
    ensures Deliver(s, Stripe(stripe, now)) == StripeStep(s, stripe, FindStripe(s.intents, stripe), now)
  {
    hide NormalizeStatus, ParseStatus, Settle, Latest, LatestOne;
    if Named(mobile.ref) {
      LatestOneIs(s.intents, WithRef(s.intents, mobile.ref.value));
    }
    if Named(stripe.session) {
      LatestOneIs(s.intents, WithRef(s.intents, stripe.session.value));
    }
    if Named(stripe.job) {
      LatestOneIs(s.intents, OfJob(s.intents, stripe.job.value));
    }
  }

  /** Under which key the two handlers remember a message, and which ones: all but a refused status. */
  lemma RemembersAsHandlers(s: Store, mobile: MobileMessage, stripe: StripeMessage, e: Event, now: int)
    ensures BoxOf(Mobile(mobile, now)) == Some(MobileBox) && KeyOf(Mobile(mobile, now)) == mobile.key
    ensures BoxOf(Stripe(stripe, now)) == Some(StripeBox) && KeyOf(Stripe(stripe, now)) == stripe.key
    ensures BoxOf(Direct(e)) == None && !Keeps(s, Direct(e)) && Keeps(s, Stripe(stripe, now))
    ensures Keeps(s, Mobile(mobile, now)) <==>
      FindMobile(s.intents, mobile) == None || NamesAState(StatusText(mobile.status))
  {
    hide FindMobile, StatusText;
    StatusMeans(mobile.status);
  }

  // ---------------------------------------------------------------- runs with arbitrary answers of the caches

  type Apply = (Store, Delivery) -> Store

  type Keeping = (Store, Delivery) -> bool

  /** `hits[i]` is the answer of its cache to the i-th delivery; a reported delivery is dropped. */
  ghost function RunWith(apply: Apply, s: Store, ds: seq<Delivery>, hits: seq<bool>): Store
    requires |hits| == |ds|
  {
    if ds == [] then s
    else
      var n := |ds| - 1;
      var before := RunWith(apply, s, ds[..n], hits[..n]);
      if hits[n] then before else apply(before, ds[n])
  }

  /** The run with both caches off. */
  ghost function RunWithout(apply: Apply, s: Store, ds: seq<Delivery>): Store {
    if ds == [] then s else apply(RunWithout(apply, s, ds[..|ds| - 1]), ds[|ds| - 1])
  }

  predicate SameEvent(d: Delivery, e: Delivery) { BoxOf(d).Some? && BoxOf(d) == BoxOf(e) && KeyOf(d) == KeyOf(e) != "" }

  /** The key of delivery i was given to its cache before. */
  ghost predicate Remembered(apply: Apply, keeps: Keeping, s: Store, ds: seq<Delivery>, hits: seq<bool>, i: nat)
    requires |hits| == |ds| && i < |ds|
  {
    exists j :: 0 <= j < i && SameEvent(ds[j], ds[i]) && !hits[j] && keeps(RunWith(apply, s, ds[..j], hits[..j]), ds[j])
  }

  /** A cache reports only keys it was given; it may forget any of them. */
  ghost predicate SoundHits(apply: Apply, keeps: Keeping, s: Store, ds: seq<Delivery>, hits: seq<bool>) {
    |hits| == |ds| && forall i :: 0 <= i < |ds| && hits[i] ==> Remembered(apply, keeps, s, ds, hits, i)
  }

  /** A copy of a delivery that some cache may report. */
  ghost predicate Repeated(apply: Apply, keeps: Keeping, s: Store, ds: seq<Delivery>, i: nat)
    requires i < |ds|
  {
    exists j :: 0 <= j < i && SameEvent(ds[j], ds[i]) && keeps(RunWithout(apply, s, ds[..j]), ds[j])
  }

  /** The copy finds a store it would not change. */
  ghost predicate Idle(apply: Apply, s: Store, ds: seq<Delivery>, i: nat)
    requires i < |ds|
  {
    apply(RunWithout(apply, s, ds[..i]), ds[i]) == RunWithout(apply, s, ds[..i])
  }

  ghost predicate CopiesIdle(apply: Apply, keeps: Keeping, s: Store, ds: seq<Delivery>) {
    forall i :: 0 <= i < |ds| && Repeated(apply, keeps, s, ds, i) ==> Idle(apply, s, ds, i)
  }

  ghost predicate AgreesAt(apply: Apply, s: Store, ds: seq<Delivery>, hits: seq<bool>, k: nat)
    requires |hits| == |ds| && k <= |ds|
  {
    RunWith(apply, s, ds[..k], hits[..k]) == RunWithout(apply, s, ds[..k])
  }

  /** Whatever the caches answer, every prefix of the run ends as with the caches off. */
  ghost predicate NeverMatters(apply: Apply, keeps: Keeping, s: Store, ds: seq<Delivery>) {
    forall hits, k :: |hits| == |ds| && SoundHits(apply, keeps, s, ds, hits) && 0 <= k <= |ds| ==>
      AgreesAt(apply, s, ds, hits, k)
  }

  lemma RunStep(apply: Apply, s: Store, ds: seq<Delivery>, hits: seq<bool>, k: nat)
    requires |hits| == |ds| && k < |ds|
    ensures RunWith(apply, s, ds[..k + 1], hits[..k + 1])
      == if hits[k] then RunWith(apply, s, ds[..k], hits[..k]) else apply(RunWith(apply, s, ds[..k], hits[..k]), ds[k])
    ensures RunWithout(apply, s, ds[..k + 1]) == apply(RunWithout(apply, s, ds[..k]), ds[k])
  {
    assert ds[..k + 1][..k] == ds[..k] && hits[..k + 1][..k] == hits[..k];
  }

  lemma {:induction false} IdleCopiesAgree(apply: Apply, keeps: Keeping, s: Store, ds: seq<Delivery>, hits: seq<bool>,
      k: nat)
    requires |hits| == |ds| && k <= |ds|
    requires CopiesIdle(apply, keeps, s, ds) && SoundHits(apply, keeps, s, ds, hits)
    ensures forall j :: 0 <= j <= k ==> AgreesAt(apply, s, ds, hits, j)
  {
    hide CopiesIdle, SoundHits, Repeated, Remembered, Idle, RunWith, RunWithout;
    if k == 0 {
      NothingDelivered(apply, s, ds, hits);
    } else {
      IdleCopiesAgree(apply, keeps, s, ds, hits, k - 1);
      assert AgreesAt(apply, s, ds, hits, k - 1);
      RunStep(apply, s, ds, hits, k - 1);
      if hits[k - 1] {
        HitIsRepeated(apply, keeps, s, ds, hits, k - 1);
        RepeatedIsIdle(apply, keeps, s, ds, k - 1);
      }
    }
  }

  lemma NothingDelivered(apply: Apply, s: Store, ds: seq<Delivery>, hits: seq<bool>)
    requires |hits| == |ds|
    ensures AgreesAt(apply, s, ds, hits, 0)
  {
  }

  lemma HitIsRepeated(apply: Apply, keeps: Keeping, s: Store, ds: seq<Delivery>, hits: seq<bool>, i: nat)
    requires |hits| == |ds| && SoundHits(apply, keeps, s, ds, hits) && i < |ds| && hits[i]
    requires forall j :: 0 <= j <= i ==> AgreesAt(apply, s, ds, hits, j)
    ensures Repeated(apply, keeps, s, ds, i)
  {
    hide RunWith, RunWithout;
    assert Remembered(apply, keeps, s, ds, hits, i);
    var j :| 0 <= j < i && SameEvent(ds[j], ds[i]) && !hits[j] && keeps(RunWith(apply, s, ds[..j], hits[..j]), ds[j]);
    assert AgreesAt(apply, s, ds, hits, j);
  }

  lemma RepeatedIsIdle(apply: Apply, keeps: Keeping, s: Store, ds: seq<Delivery>, i: nat)
    requires CopiesIdle(apply, keeps, s, ds) && i < |ds| && Repeated(apply, keeps, s, ds, i)
    ensures apply(RunWithout(apply, s, ds[..i]), ds[i]) == RunWithout(apply, s, ds[..i])
  {
    hide Repeated;
    assert Idle(apply, s, ds, i);
  }

  /** The answers "not seen" everywhere but at i. */
  function OnlyAt(n: nat, i: nat): seq<bool> { seq(n, k => k == i) }

  lemma {:induction false} SilentRun(apply: Apply, s: Store, ds: seq<Delivery>, hits: seq<bool>, k: nat)
    requires |hits| == |ds| && k <= |ds| && forall j :: 0 <= j < k ==> !hits[j]
    ensures AgreesAt(apply, s, ds, hits, k)
  {
    hide RunWith, RunWithout;
    if k == 0 {
      NothingDelivered(apply, s, ds, hits);
    } else {
      SilentRun(apply, s, ds, hits, k - 1);
      RunStep(apply, s, ds, hits, k - 1);
    }
  }

  lemma OneHitIsSound(apply: Apply, keeps: Keeping, s: Store, ds: seq<Delivery>, i: nat)
    requires i < |ds| && Repeated(apply, keeps, s, ds, i)
    ensures SoundHits(apply, keeps, s, ds, OnlyAt(|ds|, i))
  {
    hide RunWith, RunWithout, AgreesAt;
    var hits := OnlyAt(|ds|, i);
    var j :| 0 <= j < i && SameEvent(ds[j], ds[i]) && keeps(RunWithout(apply, s, ds[..j]), ds[j]);
    SilentAt(apply, s, ds, hits, j);
    assert Remembered(apply, keeps, s, ds, hits, i);
  }

  lemma SilentAt(apply: Apply, s: Store, ds: seq<Delivery>, hits: seq<bool>, k: nat)
    requires |hits| == |ds| && k <= |ds| && forall j :: 0 <= j < k ==> !hits[j]
    ensures RunWith(apply, s, ds[..k], hits[..k]) == RunWithout(apply, s, ds[..k])
  {
    hide RunWith, RunWithout;
    SilentRun(apply, s, ds, hits, k);
  }

  lemma AgreementIsIdle(apply: Apply, keeps: Keeping, s: Store, ds: seq<Delivery>, i: nat)
    requires NeverMatters(apply, keeps, s, ds) && i < |ds| && Repeated(apply, keeps, s, ds, i)
    ensures Idle(apply, s, ds, i)
  {
    hide RunWith, RunWithout, SoundHits, Repeated;
    var hits := OnlyAt(|ds|, i);
    OneHitIsSound(apply, keeps, s, ds, i);
    assert AgreesAt(apply, s, ds, hits, i + 1);
    SilentAt(apply, s, ds, hits, i);
    RunStep(apply, s, ds, hits, i);
  }

  /** The caches' answers never matter if and only if every copy they may report finds nothing to change. */
  lemma NeverMattersExactly(apply: Apply, keeps: Keeping, s: Store, ds: seq<Delivery>)
    ensures NeverMatters(apply, keeps, s, ds) <==> CopiesIdle(apply, keeps, s, ds)
  {
    hide SoundHits, Repeated, Idle, AgreesAt;
    if NeverMatters(apply, keeps, s, ds) {
      forall i | 0 <= i < |ds| && Repeated(apply, keeps, s, ds, i) ensures Idle(apply, s, ds, i) {
        AgreementIsIdle(apply, keeps, s, ds, i);
      }
    }
    if CopiesIdle(apply, keeps, s, ds) {
      forall hits, k | |hits| == |ds| && SoundHits(apply, keeps, s, ds, hits) && 0 <= k <= |ds|
        ensures AgreesAt(apply, s, ds, hits, k) {
        IdleCopiesAgree(apply, keeps, s, ds, hits, k);
      }
    }
  }
}
