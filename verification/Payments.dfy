/** Featured-job payments: intents, jobs, and every handler that changes them. */
module Payments {
  import opened Text
  import opened Html
  import opened LineText
  import RC = ReplayCache

  const THIRTY_DAYS := 30 * 24 * 60 * 60
  const HISTORY_MAX := 50

  datatype Status = Pending | AwaitingUser | Completed | Failed | Cancelled | Expired

  predicate Open(status: Status) { status == Pending || status == AwaitingUser }

  /** What was agreed when the intent was made. */
  datatype Terms = Terms(provider: string, amount: nat, currency: string)

  datatype Intent = Intent(
    job: string, user: string, terms: Terms, status: Status, extended: Option<int>, created: int,
    ref: Option<string>, reason: Option<string>, settled: Option<int>, updated: int)

  /** One entry of a job's charge history. */
  datatype Charge = Charge(intent: string, terms: Terms, ref: Option<string>, settled: int, extended: Option<int>)

  datatype Job = Job(owner: string, status: string, featured: Option<int>, history: seq<Charge>, updated: int)

  datatype Store = Store(intents: map<string, Intent>, jobs: map<string, Job>)

  /** Python's `a or b` on optional strings. */
  function Or(a: Option<string>, b: Option<string>): Option<string> { if a.Some? && a.value != "" then a else b }

  function Last50(history: seq<Charge>): seq<Charge> {
    if |history| > HISTORY_MAX then history[|history| - HISTORY_MAX..] else history
  }

  // ---------------------------------------------------------------- the steps

  /** A change of the store, named by the handler that makes it. Each handler reads the clock once. */
  datatype Event =
    | Initiate(id: string, job: string, user: string, terms: Terms, eligible: bool, ref: Option<string>, now: int)
    | Cancel(id: string, user: string, now: int)
    | Complete(id: string, ref: Option<string>, now: int)
    | Callback(id: string, status: Status, reason: Option<string>, ref: Option<string>, now: int)
    | Fail(id: string, reason: Option<string>, now: int)

  function Basis(featured: Option<int>, now: int): int {
    if featured.Some? && featured.value > now then featured.value else now
  }

  predicate OpenFor(i: Intent, job: string, user: string) { i.job == job && i.user == user && Open(i.status) }

  function OpenIds(intents: map<string, Intent>, job: string, user: string): set<string> {
    set id | id in intents && OpenFor(intents[id], job, user)
  }

  predicate MayInitiate(s: Store, e: Event)
    requires e.Initiate?
  {
    && e.eligible && e.job in s.jobs && s.jobs[e.job].owner == e.user
    && s.jobs[e.job].status in {"pending", "active"}
    && OpenIds(s.intents, e.job, e.user) == {}
  }

  function NewIntent(s: Store, e: Event): Intent
    requires e.Initiate? && e.job in s.jobs
  {
    Intent(e.job, e.user, e.terms, if e.terms.provider == "stripe" then Pending else AwaitingUser,
           Some(Basis(s.jobs[e.job].featured, e.now) + THIRTY_DAYS), e.now, e.ref, None, None, e.now)
  }

  function ChargeFor(id: string, i: Intent, ref: Option<string>, now: int): Charge {
    Charge(id, i.terms, Or(ref, i.ref), now, i.extended)
  }

  function Charged(j: Job, c: Charge, now: int): Job {
    j.(featured := if c.extended.Some? then c.extended else j.featured,
       history := Last50(j.history + [c]), updated := now)
  }

  /** `settle_intent`. */
  function Settle(s: Store, id: string, ref: Option<string>, now: int): Store {
    if id !in s.intents || s.intents[id].status == Completed then s
    else
      var i := s.intents[id];
      var paid := i.(status := Completed, settled := Some(now), updated := now, ref := Or(ref, i.ref));
      Store(s.intents[id := paid],
            if i.job in s.jobs then s.jobs[i.job := Charged(s.jobs[i.job], ChargeFor(id, i, ref, now), now)]
              else s.jobs)
  }

  function Step(s: Store, e: Event): Store {
    match e
    case Initiate(id, _, _, _, _, _, _) =>
      if MayInitiate(s, e) then s.(intents := s.intents[id := NewIntent(s, e)]) else s
    case Cancel(id, user, now) =>
      if id in s.intents && s.intents[id].user == user && Open(s.intents[id].status) then
        s.(intents := s.intents[id := s.intents[id].(
             status := Cancelled, reason := Some("user_cancelled"), settled := Some(now), updated := now)])
      else s
    case Complete(id, ref, now) => Settle(s, id, ref, now)
    case Callback(id, status, reason, ref, now) =>
      if status == Completed then Settle(s, id, ref, now)
      else if id !in s.intents then s
      else
        var i := s.intents[id];
        s.(intents := s.intents[id := i.(
             ref := Or(ref, i.ref), status := status, reason := if status == Failed then reason else None,
             settled := if status in {Failed, Cancelled, Expired} then Some(now) else i.settled, updated := now)])
    case Fail(id, reason, now) =>
      if id !in s.intents then s
      else s.(intents := s.intents[id := s.intents[id].(
                status := Failed, reason := reason, settled := Some(now), updated := now)])
  }

  // ---------------------------------------------------------------- finding the intent a message names

  /** The matches of which a query ordered by descending creation time returns the first. */
  ghost predicate Latest(intents: map<string, Intent>, matches: set<string>, found: Option<string>) {
    && (found.None? <==> matches == {})
    && (found.Some? ==> found.value in matches && found.value in intents)
    && (found.Some? ==> forall id :: id in matches ==>
      id in intents && intents[id].created <= intents[found.value].created)
  }

  function WithRef(intents: map<string, Intent>, ref: string): set<string> {
    set id | id in intents && intents[id].ref == Some(ref)
  }

  function OfJob(intents: map<string, Intent>, job: string): set<string> {
    set id | id in intents && intents[id].job == job
  }

  predicate Named(name: Option<string>) { name.Some? && name.value != "" }

  /** Mobile money: by id, else by provider reference. */
  ghost predicate FoundByIdOrRef(intents: map<string, Intent>, id: Option<string>, ref: Option<string>,
    found: Option<string>)
  {
    if Named(id) && id.value in intents then found == id
    else if Named(ref) then Latest(intents, WithRef(intents, ref.value), found)
    else found == None
  }

  /** Stripe: by id, else by session, else the latest intent of the job. */
  ghost predicate FoundFromSession(
    intents: map<string, Intent>, id: Option<string>, session: Option<string>, job: Option<string>,
      found: Option<string>)
  {
    if Named(id) && id.value in intents then found == id
    else if Named(session) && WithRef(intents, session.value) != {} then
      Latest(intents, WithRef(intents, session.value), found)
    else if Named(job) then Latest(intents, OfJob(intents, job.value), found)
    else found == None
  }

  function NormalizeStatus(value: Option<string>): string {
    var text := LowerAll(Strip(if Named(value) then value.value else "pending"));
    if text in {"success", "successful", "paid"} then "completed"
    else if text in {"error", "declined"} then "failed"
    else if text in {"timeout", "timed_out"} then "failed"
    else text
  }

  /** The database's enumeration: storing any other text fails and is rolled back. */
  function ParseStatus(text: string): Option<Status> {
    if text == "pending" then Some(Pending)
    else if text == "awaiting_user" then Some(AwaitingUser)
    else if text == "completed" then Some(Completed)
    else if text == "failed" then Some(Failed)
    else if text == "cancelled" then Some(Cancelled)
    else if text == "expired" then Some(Expired)
    else None
  }

  datatype Reply = Refused | Existing(id: string) | Created(id: string)

  /** A mobile-money callback after its signature and timestamp were accepted. */
  datatype MobileMessage = MobileMessage(
    key: string, ref: Option<string>, id: Option<string>, status: Option<string>, reason: Option<string>)

  function MobileEvent(m: MobileMessage, found: string, status: Status, now: int): Event {
    Callback(found, status, m.reason, m.ref, now)
  }

  /** What a callback does to the store once the replay cache let it through. */
  function MobileStep(s: Store, m: MobileMessage, found: Option<string>, now: int): Store {
    var status := ParseStatus(NormalizeStatus(m.status));
    if found.Some? && status.Some? then Step(s, MobileEvent(m, found.value, status.value, now)) else s
  }

  datatype StripeKind = Succeeded | AsyncFailed | Unrelated

  datatype StripeMessage = StripeMessage(
    key: string, kind: StripeKind, session: Option<string>, id: Option<string>, job: Option<string>,
      outcome: Option<string>)

  function StripeStep(s: Store, m: StripeMessage, found: Option<string>, now: int): Store {
    if found.None? then s
    else match m.kind
      case Succeeded => Settle(s, found.value, m.session, now)
      case AsyncFailed =>
        Step(s, Fail(found.value, Some(if Named(m.outcome) then m.outcome.value else "async_payment_failed"), now))
      case Unrelated => s
  }

  // ---------------------------------------------------------------- the effects, field by field

  /** All intents but `id`, and all jobs but `job`, stay as they were; nothing is added or removed. */
  ghost predicate OnlyOne(before: Store, after: Store, id: string, job: string) {
    && after.intents.Keys == before.intents.Keys && after.jobs.Keys == before.jobs.Keys
    && (forall other :: other in before.intents && other != id ==> after.intents[other] == before.intents[other])
    && (forall other :: other in before.jobs && other != job ==> after.jobs[other] == before.jobs[other])
  }

  /** What was agreed about an intent never changes. */
  predicate SameTerms(i: Intent, j: Intent) {
    i.job == j.job && i.user == j.user && i.terms == j.terms && i.extended == j.extended && i.created == j.created
  }

  /** The job's date is the one agreed in the intent, and the charge is the last of at most fifty in the history. */
  ghost predicate JobCharged(before: Job, after: Job, id: string, i: Intent, ref: Option<string>, now: int) {
    && after.owner == before.owner && after.status == before.status && after.updated == now
    && after.featured == (if i.extended.Some? then i.extended else before.featured)
    && var n := |after.history|;
       && n == (if |before.history| < 50 then |before.history| + 1 else 50)
       && after.history[..n - 1] == before.history[|before.history| - (n - 1)..]
       && after.history[n - 1].intent == id && after.history[n - 1].terms == i.terms
       && after.history[n - 1].ref == ref && after.history[n - 1].settled == now
       && after.history[n - 1].extended == i.extended
  }

  /** A payment arrived: the intent is completed now, under the newest reference, and its job is charged. */
  ghost predicate Settled(before: Store, after: Store, id: string, ref: Option<string>, now: int)
    requires id in before.intents
  {
    var i := before.intents[id];
    && OnlyOne(before, after, id, i.job)
    && var j := after.intents[id];
       && SameTerms(i, j) && j.status == Completed && j.settled == Some(now) && j.updated == now && j.reason == i.reason
       && j.ref == (if ref.Some? && ref.value != "" then ref else i.ref)
       && (i.job in before.jobs ==> JobCharged(before.jobs[i.job], after.jobs[i.job], id, i, j.ref, now))
  }

  /** Only the intent changes, in its status and what goes with it. */
  ghost predicate Marked(before: Store, after: Store, id: string, status: Status, reason: Option<string>,
    settled: Option<int>, now: int)
    requires id in before.intents
  {
    && OnlyOne(before, after, id, before.intents[id].job) && after.jobs == before.jobs
    && var j := after.intents[id];
       SameTerms(before.intents[id], j) && j.status == status && j.reason == reason && j.settled == settled
       && j.updated == now
  }

  /** The text of a reported status. */
  function StatusText(status: Option<string>): string {
    LowerAll(Strip(if status.Some? && status.value != "" then status.value else "pending"))
  }

  /** The texts that name a state. */
  predicate NamesAState(text: string) {
    || text in {"completed", "success", "successful", "paid"}
    || text in {"failed", "error", "declined", "timeout", "timed_out"}
    || text in {"cancelled", "expired", "pending", "awaiting_user"}
  }

  lemma StatusMeans(status: Option<string>)
    ensures ParseStatus(NormalizeStatus(status)).Some? <==> NamesAState(StatusText(status))
  {
    hide LowerAll, Strip;
  }

  /** What a callback that was not seen before does to the intent it names, and whether its status is accepted. */
  ghost predicate CallbackMeans(before: Store, after: Store, m: MobileMessage, id: string, now: int, accepted: bool)
    requires id in before.intents
  {
    var text, i := StatusText(m.status), before.intents[id];
    if text in {"completed", "success", "successful", "paid"} then
      accepted && if i.status == Completed then after == before else Settled(before, after, id, m.ref, now)
    else if text in {"failed", "error", "declined", "timeout", "timed_out"} then
      accepted && Marked(before, after, id, Failed, m.reason, Some(now), now) && RefTaken(i, after, id, m.ref)
    else if text == "cancelled" then
      accepted && Marked(before, after, id, Cancelled, None, Some(now), now) && RefTaken(i, after, id, m.ref)
    else if text == "expired" then
      accepted && Marked(before, after, id, Expired, None, Some(now), now) && RefTaken(i, after, id, m.ref)
    else if text == "pending" then
      accepted && Marked(before, after, id, Pending, None, i.settled, now) && RefTaken(i, after, id, m.ref)
    else if text == "awaiting_user" then
      accepted && Marked(before, after, id, AwaitingUser, None, i.settled, now) && RefTaken(i, after, id, m.ref)
    else !accepted && after == before
  }

  /** The newest reference that is not empty is kept. */
  ghost predicate RefTaken(i: Intent, after: Store, id: string, ref: Option<string>) {
    id in after.intents && after.intents[id].ref == if ref.Some? && ref.value != "" then ref else i.ref
  }

  lemma SettleMeans(s: Store, id: string, ref: Option<string>, now: int)
    requires id in s.intents && s.intents[id].status != Completed
    ensures Settled(s, Settle(s, id, ref, now), id, ref, now)
  {
    hide JobCharged, Charged, ChargeFor;
    var i := s.intents[id];
    if i.job in s.jobs {
      ChargedMeans(s.jobs[i.job], id, i, ref, now);
    }
  }

  lemma ChargedMeans(j: Job, id: string, i: Intent, ref: Option<string>, now: int)
    ensures JobCharged(j, Charged(j, ChargeFor(id, i, ref, now), now), id, i, Or(ref, i.ref), now)
  {
    hide Last50;
    var c := ChargeFor(id, i, ref, now);
    HistoryMeans(j.history, c);
  }

  lemma HistoryMeans(history: seq<Charge>, c: Charge)
    ensures var longer := Last50(history + [c]);
      var n := |longer|;
      && n == (if |history| < 50 then |history| + 1 else 50)
      && longer[..n - 1] == history[|history| - (n - 1)..] && longer[n - 1] == c
  {
  }

  lemma UpdateMeans(s: Store, id: string, status: Status, reason: Option<string>, ref: Option<string>, now: int)
    requires id in s.intents && status != Completed
    ensures var after := Step(s, Callback(id, status, reason, ref, now));
      && Marked(s, after, id, status, if status == Failed then reason else None,
                if status in {Failed, Cancelled, Expired} then Some(now) else s.intents[id].settled, now)
      && RefTaken(s.intents[id], after, id, ref)
  {
  }

  lemma FailMeans(s: Store, id: string, reason: Option<string>, now: int)
    requires id in s.intents
    ensures var after := Step(s, Fail(id, reason, now));
      Marked(s, after, id, Failed, reason, Some(now), now) && RefTaken(s.intents[id], after, id, None)
  {
  }

  lemma MobileMeans(s: Store, m: MobileMessage, id: string, now: int)
    requires id in s.intents
    ensures CallbackMeans(s, MobileStep(s, m, Some(id), now), m, id, now, ParseStatus(NormalizeStatus(m.status)).Some?)
  {
    hide LowerAll, Strip, Settle, Settled, Marked, RefTaken;
    var status := ParseStatus(NormalizeStatus(m.status));
    if status == Some(Completed) {
      if s.intents[id].status != Completed {
        SettleMeans(s, id, m.ref, now);
      } else {
        SettleTwice(s, id, m.ref, now);
      }
    } else if status.Some? {
      UpdateMeans(s, id, status.value, m.reason, m.ref, now);
    }
  }

  /** The owner may pay for a job that is pending or active. */
  predicate Payable(jobs: map<string, Job>, e: Event)
    requires e.Initiate?
  {
    && e.eligible && e.job in jobs && jobs[e.job].owner == e.user
    && (jobs[e.job].status == "pending" || jobs[e.job].status == "active")
  }

  predicate NoneOpen(intents: map<string, Intent>, job: string, user: string) {
    forall id :: id in intents ==> !IsOpenFor(intents[id], job, user)
  }

  predicate IsOpenFor(i: Intent, job: string, user: string) {
    i.job == job && i.user == user && (i.status == Pending || i.status == AwaitingUser)
  }

  /** Of the open intents of the user for the job, none was made later. */
  ghost predicate NewestOpen(intents: map<string, Intent>, job: string, user: string, found: string) {
    && found in intents && IsOpenFor(intents[found], job, user)
    && forall id :: id in intents && IsOpenFor(intents[id], job, user) ==>
         intents[id].created <= intents[found].created
  }

  /** The newest intent with a reference, and none only if there is none with it. */
  lemma NewestWithRef(intents: map<string, Intent>, ref: string, found: Option<string>)
    ensures Latest(intents, WithRef(intents, ref), found) <==>
      && (found.None? ==> forall id :: id in intents ==> intents[id].ref != Some(ref))
      && (found.Some? ==> found.value in intents && intents[found.value].ref == Some(ref))
      && (found.Some? ==> forall id :: id in intents && intents[id].ref == Some(ref) ==>
            intents[id].created <= intents[found.value].created)
  {
    assert WithRef(intents, ref) == {} <==> forall id :: id in intents ==> id !in WithRef(intents, ref);
  }

  /** The newest intent of a job, and none only if it has none. */
  lemma NewestOfJob(intents: map<string, Intent>, job: string, found: Option<string>)
    ensures Latest(intents, OfJob(intents, job), found) <==>
      && (found.None? ==> forall id :: id in intents ==> intents[id].job != job)
      && (found.Some? ==> found.value in intents && intents[found.value].job == job)
      && (found.Some? ==> forall id :: id in intents && intents[id].job == job ==>
            intents[id].created <= intents[found.value].created)
  {
    assert OfJob(intents, job) == {} <==> forall id :: id in intents ==> id !in OfJob(intents, job);
  }

  /** A new intent: thirty days from the later of now and the end of what is paid already. */
  ghost predicate Initiated(before: Store, after: Store, e: Event)
    requires e.Initiate? && e.job in before.jobs
  {
    && after.jobs == before.jobs && after.intents.Keys == before.intents.Keys + {e.id}
    && (forall other :: other in before.intents && other != e.id ==> after.intents[other] == before.intents[other])
    && var i, featured := after.intents[e.id], before.jobs[e.job].featured;
       && i.job == e.job && i.user == e.user && i.terms == e.terms && i.ref == e.ref && i.reason == None
       && i.settled == None && i.created == e.now && i.updated == e.now
       && i.status == (if e.terms.provider == "stripe" then Pending else AwaitingUser)
       && i.extended == Some((if featured.Some? && featured.value > e.now then featured.value else e.now) + 2592000)
  }

  lemma InitiateMeans(s: Store, e: Event)
    requires e.Initiate? && MayInitiate(s, e)
    ensures Initiated(s, Step(s, e), e)
  {
    hide MayInitiate;
    assert e.job in s.jobs by {
      MayInitiateHas(s, e);
    }
  }

  lemma MayInitiateHas(s: Store, e: Event)
    requires e.Initiate? && MayInitiate(s, e)
    ensures e.job in s.jobs
  {
  }

  /** What a Stripe event that was not seen before does to the intent it names. */
  ghost predicate StripeMeans(before: Store, after: Store, m: StripeMessage, id: string, now: int)
    requires id in before.intents
  {
    match m.kind
    case Succeeded =>
      if before.intents[id].status == Completed then after == before else Settled(before, after, id, m.session, now)
    case AsyncFailed =>
      && Marked(before, after, id, Failed,
           if m.outcome.Some? && m.outcome.value != "" then m.outcome else Some("async_payment_failed"), Some(now), now)
      && RefTaken(before.intents[id], after, id, None)
    case Unrelated => after == before
  }

  lemma StripeMeansStep(s: Store, m: StripeMessage, id: string, now: int)
    requires id in s.intents
    ensures StripeMeans(s, StripeStep(s, m, Some(id), now), m, id, now)
  {
    hide Settle, Settled, Step, Marked, RefTaken;
    match m.kind
    case Succeeded =>
      if s.intents[id].status != Completed {
        SettleMeans(s, id, m.session, now);
      } else {
        SettleTwice(s, id, m.session, now);
      }
    case AsyncFailed =>
      FailMeans(s, id, Some(if Named(m.outcome) then m.outcome.value else "async_payment_failed"), now);
    case Unrelated =>
  }

  lemma SettleTwice(s: Store, id: string, ref: Option<string>, now: int)
    requires id in s.intents && s.intents[id].status == Completed
    ensures Settle(s, id, ref, now) == s
  {
  }

  // ---------------------------------------------------------------- the database and its handlers

  class PaymentStore {
    var intents: map<string, Intent>
    var jobs: map<string, Job>

    constructor (s: Store)
      ensures View() == s
    {
      intents, jobs := s.intents, s.jobs;
    }

    function View(): Store
      reads this
    {
      Store(intents, jobs)
    }

    method LatestOf(matches: set<string>) returns (found: Option<string>)
      requires matches <= intents.Keys
      ensures Latest(intents, matches, found)
    {
      found := None;
      var rest := matches;
      while rest != {}
        invariant rest <= matches && Latest(intents, matches - rest, found)
        decreases rest
      {
        var id :| id in rest;
        if found.None? || intents[found.value].created < intents[id].created {
          found := Some(id);
        }
        rest := rest - {id};
      }
      assert matches - {} == matches;
    }

    method FindIntent(id: Option<string>, ref: Option<string>) returns (found: Option<string>)
      ensures FoundByIdOrRef(intents, id, ref, found)
    {
      if Named(id) && id.value in intents {
        return id;
      }
      if Named(ref) {
        found := LatestOf(WithRef(intents, ref.value));
        return;
      }
      return None;
    }

    method FindIntentFromSession(m: StripeMessage) returns (found: Option<string>)
      ensures FoundFromSession(intents, m.id, m.session, m.job, found)
    {
      if Named(m.id) && m.id.value in intents {
        return m.id;
      }
      if Named(m.session) {
        found := LatestOf(WithRef(intents, m.session.value));
        if found.Some? {
          return;
        }
      }
      if !Named(m.job) {
        return None;
      }
      found := LatestOf(OfJob(intents, m.job.value));
    }

    /** True: this call completed the intent; false: it was completed before, or does not exist. */
    method SettleIntent(id: string, ref: Option<string>, now: int) returns (settled: bool)
      modifies this
      ensures settled == (id in old(intents) && old(intents)[id].status != Completed)
      ensures View() == Settle(old(View()), id, ref, now)
      ensures if settled then Settled(old(View()), View(), id, ref, now) else View() == old(View())
    {
      if id !in intents || intents[id].status == Completed {
        return false;
      }
      SettleMeans(View(), id, ref, now);
      var intent := intents[id];
      intent := intent.(status := Completed, settled := Some(now), updated := now);
      if Named(ref) {
        intent := intent.(ref := ref);
      }
      intents := intents[id := intent];
      if intent.job in jobs {
        var job := jobs[intent.job];
        if intent.extended.Some? {
          job := job.(featured := intent.extended);
        }
        var history := job.history + [Charge(id, intent.terms, Or(ref, intent.ref), now, intent.extended)];
        if |history| > HISTORY_MAX {
          history := history[|history| - HISTORY_MAX..];
        }
        jobs := jobs[intent.job := job.(history := history, updated := now)];
      }
      return true;
    }

    /** The payment page: an open intent of the same owner and job is handed out again. */
    method InitiatePayment(e: Event) returns (reply: Reply)
      requires e.Initiate? && e.id !in intents
      modifies this`intents
      ensures View() == Step(old(View()), e)
      ensures reply.Created? <==> MayInitiate(old(View()), e)
      ensures reply.Created? ==> reply.id == e.id
      ensures reply.Existing? ==> reply.id in old(intents) && OpenFor(old(intents)[reply.id], e.job, e.user)
      ensures reply.Refused? <==> !Payable(jobs, e)
      ensures reply.Created? <==> Payable(jobs, e) && NoneOpen(old(intents), e.job, e.user)
      ensures reply.Existing? ==> NewestOpen(old(intents), e.job, e.user, reply.id)
      ensures if reply.Created? then Initiated(old(View()), View(), e) else View() == old(View())
    {
      if MayInitiate(View(), e) {
        InitiateMeans(View(), e);
      }
      if !e.eligible || e.job !in jobs || jobs[e.job].owner != e.user || jobs[e.job].status !in {"pending", "active"} {
        return Refused;
      }
      var existing := LatestOf(OpenIds(intents, e.job, e.user));
      if existing.Some? {
        return Existing(existing.value);
      }
      var featured := jobs[e.job].featured;
      var basis := if featured.Some? && featured.value > e.now then featured.value else e.now;
      var status := if e.terms.provider == "stripe" then Pending else AwaitingUser;
      intents := intents[e.id := Intent(e.job, e.user, e.terms, status, Some(basis + THIRTY_DAYS), e.now, e.ref, None,
        None, e.now)];
      return Created(e.id);
    }

    method CancelPayment(id: string, user: string, now: int) returns (known: bool)
      modifies this`intents
      ensures known == (id in intents && intents[id].user == user)
      ensures View() == Step(old(View()), Cancel(id, user, now))
      ensures if known && old(intents)[id].status in {Pending, AwaitingUser}
        then Marked(old(View()), View(), id, Cancelled, Some("user_cancelled"), Some(now), now)
        else View() == old(View())
    {
      if id !in intents || intents[id].user != user {
        return false;
      }
      if Open(intents[id].status) {
        intents := intents[id := intents[id].(
          status := Cancelled, reason := Some("user_cancelled"), settled := Some(now), updated := now)];
      }
      return true;
    }

    /** `accepted` is false when the database refuses the status: then the event is not remembered either. */
    method HandleCallback(cache: RC.Cache, m: MobileMessage, now: int)
      returns (hit: bool, accepted: bool, found: Option<string>, ghost asked: RC.Entries)
      modifies this, cache
      ensures RC.Step(RC.Limits(cache.ttl, cache.max), old(cache.entries), RC.Op.Ask(m.key, now, hit), asked)
      ensures hit || !accepted ==> View() == old(View()) && cache.entries == asked
      ensures !hit ==> FoundByIdOrRef(old(intents), m.id, m.ref, found)
      ensures !hit ==> View() == MobileStep(old(View()), m, found, now)
      ensures !hit ==> (accepted <==> found.None? || ParseStatus(NormalizeStatus(m.status)).Some?)
      ensures !hit && found.None? ==> View() == old(View()) && accepted
      ensures !hit && found.Some? ==>
        found.value in old(intents) && CallbackMeans(old(View()), View(), m, found.value, now, accepted)
      ensures !hit && accepted ==>
        RC.Step(RC.Limits(cache.ttl, cache.max), asked, RC.Op.Add(m.key, now), cache.entries)
    {
      accepted, found := true, None;
      hit := cache.Contains(m.key, now);
      asked := cache.entries;
      if hit {
        return;
      }
      found := FindIntent(m.id, m.ref);
      if found.Some? {
        MobileMeans(View(), m, found.value, now);
        var text := NormalizeStatus(m.status);
        if text == "completed" {
          var settled := SettleIntent(found.value, m.ref, now);
        } else {
          var status := ParseStatus(text);
          if status.None? {
            accepted := false;
            return;
          }
          UpdateIntent(found.value, status.value, m.reason, m.ref, now);
        }
      }
      cache.Add(m.key, now);
    }

    method UpdateIntent(id: string, status: Status, reason: Option<string>, ref: Option<string>, now: int)
      requires id in intents && status != Completed
      modifies this`intents
      ensures View() == Step(old(View()), Callback(id, status, reason, ref, now))
    {
      var intent := intents[id];
      if Named(ref) {
        intent := intent.(ref := ref);
      }
      intent := intent.(status := status, reason := if status == Failed then reason else None);
      if status in {Failed, Cancelled, Expired} {
        intent := intent.(settled := Some(now));
      }
      intents := intents[id := intent.(updated := now)];
    }

    method StripeWebhook(cache: RC.Cache, m: StripeMessage, now: int)
      returns (hit: bool, found: Option<string>, ghost asked: RC.Entries)
      modifies this, cache
      ensures RC.Step(RC.Limits(cache.ttl, cache.max), old(cache.entries), RC.Op.Ask(m.key, now, hit), asked)
      ensures hit ==> View() == old(View()) && cache.entries == asked
      ensures !hit && m.kind != Unrelated ==> FoundFromSession(old(intents), m.id, m.session, m.job, found)
      ensures !hit ==> View() == StripeStep(old(View()), m, found, now)
      ensures !hit && found.None? ==> View() == old(View())
      ensures !hit && found.Some? ==>
        found.value in old(intents) && StripeMeans(old(View()), View(), m, found.value, now)
      ensures !hit ==> RC.Step(RC.Limits(cache.ttl, cache.max), asked, RC.Op.Add(m.key, now), cache.entries)
    {
      found := None;
      hit := cache.Contains(m.key, now);
      asked := cache.entries;
      if hit {
        return;
      }
      if m.kind != Unrelated {
        found := FindIntentFromSession(m);
      }
      if found.Some? {
        StripeMeansStep(View(), m, found.value, now);
        if m.kind == Succeeded {
          var settled := SettleIntent(found.value, m.session, now);
        } else {
          FailIntent(found.value, if Named(m.outcome) then m.outcome.value else "async_payment_failed", now);
        }
      }
      cache.Add(m.key, now);
    }

    method FailIntent(id: string, reason: string, now: int)
      requires id in intents
      modifies this`intents
      ensures View() == Step(old(View()), Fail(id, Some(reason), now))
    {
      intents := intents[id := intents[id].(status := Failed, reason := Some(reason), settled := Some(now),
        updated := now)];
    }

    /** The simulator's worker: any outcome but "completed" is a failure. */
    method SettleSimulated(id: string, outcome: string, reason: Option<string>, now: int)
      modifies this
      ensures View() == Step(old(View()),
        if outcome == "completed" then Complete(id, if id in old(intents) then old(intents)[id].ref else None, now)
        else Fail(id, Some(if Named(reason) then reason.value else "unknown"), now))
      ensures id !in old(intents) || (outcome == "completed" && old(intents)[id].status == Completed) ==>
        View() == old(View())
      ensures id in old(intents) && outcome == "completed" && old(intents)[id].status != Completed ==>
        Settled(old(View()), View(), id, old(intents)[id].ref, now)
      ensures id in old(intents) && outcome != "completed" ==>
        Marked(old(View()), View(), id, Failed,
          if reason.Some? && reason.value != "" then reason else Some("unknown"), Some(now), now)
    {
      if id !in intents {
        return;
      }
      if outcome == "completed" {
        var settled := SettleIntent(id, intents[id].ref, now);
      } else {
        FailIntent(id, if Named(reason) then reason.value else "unknown", now);
      }
    }
  }
}
