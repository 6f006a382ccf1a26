/** The charge history of a job: first-time settlements, each intent once. */
module Charges {
  import opened Text
  import opened Payments
  import opened PaymentRuns
  import opened Deliveries
  import opened Callbacks

  /** The charge a delivery makes to a job, if any. */
  ghost function ChargeStep(s: Store, d: Delivery, job: string): seq<Charge> {
    match EventOf(s, d)
    case None => []
    case Some(e) => ChargeOf(s, e, job)
  }

  function ChargeOf(s: Store, e: Event, job: string): seq<Charge> {
    if IsCompletion(e) && e.id in s.intents && !Done(s, e.id) && s.intents[e.id].job == job then
      [ChargeFor(e.id, s.intents[e.id], e.ref, e.now)]
    else []
  }

  /** The first-time settlements of a run, in order. */
  ghost function Charges(s: Store, ds: seq<Delivery>, job: string): seq<Charge> {
    if ds == [] then []
    else
      var front := ds[..|ds| - 1];
      Charges(s, front, job) + ChargeStep(RunWithout(Deliver, s, front), ds[|ds| - 1], job)
  }

  function EndDate(before: Option<int>, charges: seq<Charge>): Option<int> {
    if charges == [] then before
    else if charges[|charges| - 1].extended.Some? then charges[|charges| - 1].extended
    else EndDate(before, charges[..|charges| - 1])
  }

  lemma Last50Snoc(history: seq<Charge>, c: Charge)
    ensures Last50(Last50(history) + [c]) == Last50(history + [c])
  {
  }

  lemma JobEvent(s: Store, e: Event, job: string)
    requires job in s.jobs
    ensures job in Step(s, e).jobs && |ChargeOf(s, e, job)| <= 1
    ensures var j, charge := s.jobs[job], ChargeOf(s, e, job);
      && Step(s, e).jobs[job].history == (if charge == [] then j.history else Last50(j.history + charge))
      && Step(s, e).jobs[job].featured == EndDate(j.featured, charge)
  {
    hide Last50, NewIntent, MayInitiate;
  }

  lemma JobStep(s: Store, d: Delivery, job: string)
    requires job in s.jobs
    ensures job in Deliver(s, d).jobs && |ChargeStep(s, d, job)| <= 1
    ensures var j, charge := s.jobs[job], ChargeStep(s, d, job);
      && Deliver(s, d).jobs[job].history == (if charge == [] then j.history else Last50(j.history + charge))
      && Deliver(s, d).jobs[job].featured == EndDate(j.featured, charge)
  {
    hide EventOf, Step, ChargeOf, Last50;
    if EventOf(s, d).Some? {
      JobEvent(s, EventOf(s, d).value, job);
    }
  }

  lemma EndDateAppend(before: Option<int>, charges: seq<Charge>, charge: seq<Charge>)
    requires |charge| <= 1
    ensures EndDate(EndDate(before, charges), charge) == EndDate(before, charges + charge)
  {
    if charge == [] {
      assert charges + charge == charges;
    } else {
      assert (charges + charge)[..|charges + charge| - 1] == charges && charge[..0] == [];
    }
  }

  /** The history is the last fifty of what was there and the first-time settlements; the end date is the last one's. */
  lemma {:induction false} HistoryIs(s: Store, ds: seq<Delivery>, job: string)
    requires job in s.jobs
    ensures job in RunWithout(Deliver, s, ds).jobs
    ensures RunWithout(Deliver, s, ds).jobs[job].history
      == if Charges(s, ds, job) == [] then s.jobs[job].history else Last50(s.jobs[job].history + Charges(s, ds, job))
    ensures RunWithout(Deliver, s, ds).jobs[job].featured == EndDate(s.jobs[job].featured, Charges(s, ds, job))
  {
    hide Deliver, ChargeStep, Last50, EndDate;
    if ds == [] {
      NoCharges(s.jobs[job].featured);
    } else {
      var front, last := ds[..|ds| - 1], ds[|ds| - 1];
      HistoryIs(s, front, job);
      JobStep(RunWithout(Deliver, s, front), last, job);
      var h, charges, charge := s.jobs[job].history, Charges(s, front, job),
          ChargeStep(RunWithout(Deliver, s, front), last, job);
      EndDateAppend(s.jobs[job].featured, charges, charge);
      if charge != [] {
        Last50Snoc(h + charges, charge[0]);
        assert charge == [charge[0]];
        assert h + charges + charge == h + (charges + charge);
        assert charges == [] ==> h + charges == h;
      } else {
        assert charges + charge == charges;
      }
    }
  }

  lemma NoCharges(before: Option<int>)
    ensures EndDate(before, []) == before
  {
  }

  predicate DoneFor(s: Store, id: string, job: string) { Done(s, id) && s.intents[id].job == job }

  predicate ChargedIn(charges: seq<Charge>, id: string) { exists i :: 0 <= i < |charges| && charges[i].intent == id }

  /** The charges are the intents of the job completed in the run, each once. */
  ghost predicate OnePerPayment(s: Store, after: Store, charges: seq<Charge>, job: string) {
    && (forall i, j :: 0 <= i < j < |charges| ==> charges[i].intent != charges[j].intent)
    && (forall id :: ChargedIn(charges, id) <==> DoneFor(after, id, job) && !Done(s, id))
  }

  /** What one calm event does to the set of completed intents. */
  lemma DoneEvent(s: Store, e: Event, job: string, id: string)
    requires CalmEvent(s, e)
    ensures var after, charge := Step(s, e), ChargeOf(s, e, job);
      DoneFor(after, id, job) <==> DoneFor(s, id, job) || (charge != [] && charge[0].intent == id)
    ensures var charge := ChargeOf(s, e, job); |charge| <= 1 && (charge != [] ==> !Done(s, charge[0].intent))
    ensures Done(s, id) ==> Done(Step(s, e), id)
  {
    hide Last50, MayInitiate;
  }

  lemma DoneStep(s: Store, d: Delivery, job: string, id: string)
    requires CalmDelivery(s, d)
    ensures var after, charge := Deliver(s, d), ChargeStep(s, d, job);
      DoneFor(after, id, job) <==> DoneFor(s, id, job) || (charge != [] && charge[0].intent == id)
    ensures var charge := ChargeStep(s, d, job); |charge| <= 1 && (charge != [] ==> !Done(s, charge[0].intent))
    ensures Done(s, id) ==> Done(Deliver(s, d), id)
  {
    hide EventOf, Step, ChargeOf, CalmEvent, Done;
    if EventOf(s, d).Some? {
      DoneEvent(s, EventOf(s, d).value, job, id);
    }
  }

  lemma ChargedInAppend(charges: seq<Charge>, charge: seq<Charge>, id: string)
    requires |charge| <= 1
    ensures ChargedIn(charges + charge, id) <==> ChargedIn(charges, id) || (charge != [] && charge[0].intent == id)
  {
    var all := charges + charge;
    forall i | 0 <= i < |charges| ensures all[i] == charges[i] {
    }
    if charge != [] {
      assert all[|charges|] == charge[0];
    }
  }

  lemma OnePerPaymentStep(s: Store, before: Store, d: Delivery, charges: seq<Charge>, job: string)
    requires OnePerPayment(s, before, charges, job) && CalmDelivery(before, d)
    requires forall id :: Done(s, id) ==> Done(before, id)
    ensures OnePerPayment(s, Deliver(before, d), charges + ChargeStep(before, d, job), job)
    ensures forall id :: Done(s, id) ==> Done(Deliver(before, d), id)
  {
    hide CalmDelivery, Deliver, ChargeStep, Done, ChargedIn;
    var after, charge := Deliver(before, d), ChargeStep(before, d, job);
    forall id ensures ChargedIn(charges + charge, id) <==> DoneFor(after, id, job) && !Done(s, id) {
      DoneStep(before, d, job, id);
      ChargedInAppend(charges, charge, id);
    }
    forall id | Done(s, id) ensures Done(after, id) {
      DoneStep(before, d, job, id);
    }
    DoneStep(before, d, job, "");
    forall i | 0 <= i < |charges| ensures ChargedIn(charges, charges[i].intent) {
      ChargedAt(charges, i);
    }
  }

  lemma ChargedAt(charges: seq<Charge>, i: nat)
    requires i < |charges|
    ensures ChargedIn(charges, charges[i].intent)
  {
  }

  /**
   * In a calm run no intent is charged twice, and an intent of the job is charged exactly if it was completed in
   * the run.
   */
  lemma {:induction false} ChargedOnce(s: Store, ds: seq<Delivery>, job: string)
    requires Calm(s, ds)
    ensures OnePerPayment(s, RunWithout(Deliver, s, ds), Charges(s, ds, job), job)
    ensures forall id :: Done(s, id) ==> Done(RunWithout(Deliver, s, ds), id)
  {
    hide OnePerPayment, CalmDelivery, Deliver, ChargeStep, Done;
    if ds == [] {
      NothingPaid(s, job);
    } else {
      var front, last := ds[..|ds| - 1], ds[|ds| - 1];
      ChargedOnce(s, front, job);
      OnePerPaymentStep(s, RunWithout(Deliver, s, front), last, Charges(s, front, job), job);
    }
  }

  lemma NothingPaid(s: Store, job: string)
    ensures OnePerPayment(s, s, [], job)
  {
  }
}
