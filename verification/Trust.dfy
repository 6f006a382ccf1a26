/** A company's verification state, its trust badges and its audit trail. */
module Trust {
  import opened Text
  import opened CharRuns
  import opened Html
  import opened LineText

  datatype Verification = Unverified | Pending | Verified | Rejected | Revoked | Flagged

  function AllowedFrom(current: Verification): set<Verification> {
    match current
    case Unverified => {Pending, Flagged}
    case Pending => {Verified, Rejected, Flagged}
    case Verified => {Revoked, Flagged}
    case Rejected => {Pending}
    case Revoked => {Pending}
    case Flagged => {Pending}
  }

  predicate IsAllowed(current: Verification, target: Verification) { target in AllowedFrom(current) }

  /** Named badges stand in the alphabetical order of their names; stored lists may hold anything. */
  datatype Badge =
    | Activity | BusinessDocumentVerified | DomainVerified | EmailVerified | PaymentVerified
    | Other(name: string)

  const SORTED_BADGES := [Activity, BusinessDocumentVerified, DomainVerified, EmailVerified, PaymentVerified]

  /** The truth values of the entries of `external_refs` that badges are derived from. */
  datatype Refs = Refs(emailVerified: bool, paymentVerified: bool, activity: bool)

  /** One "verification.transition" row of the audit log. */
  datatype AuditRow = AuditRow(actor: string, before: Verification, after: Verification, reason: Option<string>)

  datatype State = State(status: Verification, domains: seq<string>, badges: seq<Badge>, audit: seq<AuditRow>)

  function Derived(status: Verification, domains: seq<string>, refs: Refs): set<Badge> {
    (if refs.emailVerified then {EmailVerified} else {})
    + (if domains != [] then {DomainVerified} else {})
    + (if status == Verified then {BusinessDocumentVerified} else {})
    + (if refs.paymentVerified then {PaymentVerified} else {})
    + (if refs.activity then {Activity} else {})
  }

  function Elements<T(==)>(s: seq<T>): set<T> { set x | x in s }

  /** Stored badges that still hold keep their order; new ones follow in name order. */
  function Reconciled(badges: seq<Badge>, derived: set<Badge>): seq<Badge> {
    Kept(badges, derived) + Added(badges, derived, SORTED_BADGES)
  }

  function Kept(badges: seq<Badge>, derived: set<Badge>): seq<Badge> { Filter(b => b in derived, badges) }

  function Added(badges: seq<Badge>, derived: set<Badge>, candidates: seq<Badge>): seq<Badge> {
    Filter(b => b in derived && b !in badges, candidates)
  }

  /** `list.remove(x)`: the first occurrence goes. */
  function Removed<T(==)>(s: seq<T>, x: T): seq<T> {
    if s == [] then [] else if s[0] == x then s[1..] else [s[0]] + Removed(s[1..], x)
  }

  lemma {:induction false} RemovedBehind<T>(front: seq<T>, x: T, rest: seq<T>)
    requires x !in front
    ensures Removed(front + [x] + rest, x) == front + rest
  {
    var s := front + [x] + rest;
    if front == [] {
      assert s[1..] == rest;
      assert front + rest == rest;
    } else {
      assert s[0] == front[0] && s[1..] == front[1..] + [x] + rest;
      RemovedBehind(front[1..], x, rest);
      assert [front[0]] + (front[1..] + rest) == front + rest;
    }
  }

  /** What a company action needs: an admin's transition, or a proven domain with the failing attach attempts. */
  datatype Action =
    | Transition(target: Verification, actor: string, reason: Option<string>)
    | Attach(domain: string, failures: nat)

  const ATTACH_ATTEMPTS := 3

  function NormalizeDomain(domain: string): string { LowerAll(StripLeft(Strip(domain), c => c == '@')) }

  predicate Succeeds(s: State, a: Action) {
    match a
    case Transition(target, _, _) => IsAllowed(s.status, target)
    case Attach(_, failures) => failures < ATTACH_ATTEMPTS
  }

  function Reconcile(s: State, refs: Refs): State {
    s.(badges := Reconciled(s.badges, Derived(s.status, s.domains, refs)))
  }

  function Step(s: State, refs: Refs, a: Action): State {
    if !Succeeds(s, a) then s
    else match a
      case Transition(target, actor, reason) =>
        var moved := Reconcile(s.(status := target), refs);
        moved.(audit := moved.audit + [AuditRow(actor, s.status, target, reason)])
      case Attach(domain, _) =>
        var name := NormalizeDomain(domain);
        Reconcile(if name in s.domains then s else s.(domains := s.domains + [name]), refs)
  }

  // ---------------------------------------------------------------- what a company shows

  /** The names the badges are stored under. */
  function BadgeName(b: Badge): string {
    match b
    case Activity => "activity"
    case BusinessDocumentVerified => "business-document verified"
    case DomainVerified => "domain verified"
    case EmailVerified => "email verified"
    case PaymentVerified => "payment verified"
    case Other(name) => name
  }

  /** Each badge is shown exactly while its own condition holds, and no other badge is. */
  ghost predicate ShowsBadges(badges: seq<Badge>, status: Verification, domains: seq<string>, refs: Refs) {
    && (EmailVerified in badges <==> refs.emailVerified)
    && (DomainVerified in badges <==> domains != [])
    && (BusinessDocumentVerified in badges <==> status == Verified)
    && (PaymentVerified in badges <==> refs.paymentVerified)
    && (Activity in badges <==> refs.activity)
    && (forall b :: b in badges ==> !b.Other?)
  }

  /** Badges that were shown before come first, in their old order; the others follow by name. */
  ghost predicate KeepsOrder(before: seq<Badge>, after: seq<Badge>) {
    exists n :: 0 <= n <= |after| && after[..n] == Filter(b => b in after, before) && NewByName(before, after[n..])
  }

  ghost predicate NewByName(before: seq<Badge>, added: seq<Badge>) {
    (forall b :: b in added ==> b !in before) && ByName(added)
  }

  /** The names differ in their first letters and ascend. */
  ghost predicate ByName(badges: seq<Badge>) {
    && (forall b :: b in badges ==> BadgeName(b) != "")
    && (forall i, j :: 0 <= i < j < |badges| ==> BadgeName(badges[i])[0] < BadgeName(badges[j])[0])
  }

  lemma ReconcileShows(s: State, refs: Refs)
    ensures ShowsBadges(Reconcile(s, refs).badges, s.status, s.domains, refs)
    ensures KeepsOrder(s.badges, Reconcile(s, refs).badges)
    ensures Reconcile(s, refs) == s.(badges := Reconcile(s, refs).badges)
  {
    hide Reconciled, Kept, Added, Filter;
    var derived := Derived(s.status, s.domains, refs);
    ReconciledElements(s.badges, s.status, s.domains, refs);
    var after := Reconciled(s.badges, derived);
    assert forall b :: b in after <==> b in Elements(after);
    ReconciledInOrder(s.badges, derived);
  }

  lemma ReconciledInOrder(badges: seq<Badge>, derived: set<Badge>)
    requires Elements(Reconciled(badges, derived)) == derived
    ensures KeepsOrder(badges, Reconciled(badges, derived))
  {
    hide Filter, BadgeName;
    var after, kept := Reconciled(badges, derived), Kept(badges, derived);
    assert forall b :: b in after <==> b in Elements(after);
    FilterSame(b => b in derived, b => b in after, badges);
    assert after[..|kept|] == kept && after[|kept|..] == Added(badges, derived, SORTED_BADGES);
    SortedByName();
    AddedByName(badges, derived, SORTED_BADGES);
  }

  lemma SortedByName()
    ensures ByName(SORTED_BADGES)
  {
    hide BadgeName;
    FirstLetters();
    var badges := SORTED_BADGES;
    assert |badges| == 5 && badges[0] == Activity && badges[1] == BusinessDocumentVerified;
    assert badges[2] == DomainVerified && badges[3] == EmailVerified && badges[4] == PaymentVerified;
  }

  lemma FirstLetters()
    ensures BadgeName(Activity) != "" && BadgeName(Activity)[0] == 'a'
    ensures BadgeName(BusinessDocumentVerified) != "" && BadgeName(BusinessDocumentVerified)[0] == 'b'
    ensures BadgeName(DomainVerified) != "" && BadgeName(DomainVerified)[0] == 'd'
    ensures BadgeName(EmailVerified) != "" && BadgeName(EmailVerified)[0] == 'e'
    ensures BadgeName(PaymentVerified) != "" && BadgeName(PaymentVerified)[0] == 'p'
  {
  }

  lemma {:induction false} AddedByName(badges: seq<Badge>, derived: set<Badge>, candidates: seq<Badge>)
    requires ByName(candidates)
    ensures var added := Added(badges, derived, candidates);
      NewByName(badges, added) && forall b :: b in added ==> b in candidates
  {
    hide BadgeName;
    if candidates != [] {
      var first, rest := candidates[0], candidates[1..];
      ByNameTail(candidates);
      AddedByName(badges, derived, rest);
      if first in derived && first !in badges {
        ByNameCons(first, Added(badges, derived, rest));
      }
    }
  }

  lemma ByNameTail(badges: seq<Badge>)
    requires badges != [] && ByName(badges)
    ensures ByName(badges[1..])
    ensures BadgeName(badges[0]) != ""
    ensures forall b :: b in badges[1..] ==> BadgeName(b) != "" && BadgeName(badges[0])[0] < BadgeName(b)[0]
  {
    hide BadgeName;
    var rest := badges[1..];
    forall b | b in rest ensures BadgeName(b) != "" && BadgeName(badges[0])[0] < BadgeName(b)[0] {
      var j :| 0 <= j < |rest| && rest[j] == b;
      assert badges[j + 1] == b;
    }
  }

  lemma ByNameCons(first: Badge, badges: seq<Badge>)
    requires ByName(badges) && BadgeName(first) != ""
    requires forall b :: b in badges ==> BadgeName(b) != "" && BadgeName(first)[0] < BadgeName(b)[0]
    ensures ByName([first] + badges)
  {
    hide BadgeName;
  }

  /** Which moves the table allows, by the state they lead to. */
  lemma AllowedMoves(current: Verification, target: Verification)
    ensures IsAllowed(current, target) <==>
      match target
      case Unverified => false
      case Pending => current in {Unverified, Rejected, Revoked, Flagged}
      case Verified => current == Pending
      case Rejected => current == Pending
      case Revoked => current == Verified
      case Flagged => current in {Unverified, Pending, Verified}
  {
  }

  /** A domain is compared without outer white space and leading at-signs, in lower case. */
  lemma NormalizeDomainMeans(domain: string) returns (left: string, ats: string, rest: string, right: string)
    ensures domain == left + ats + rest + right && NormalizeDomain(domain) == LowerAll(rest)
    ensures All(left, PythonSpace) && All(right, PythonSpace) && (forall i :: 0 <= i < |ats| ==> ats[i] == '@')
    ensures rest != "" ==> rest[0] != '@' && !PythonSpace(rest[|rest| - 1])
  {
    hide StripLeft, StripBoth, LowerAll, PythonSpace;
    left, right := StripIs(domain, PythonSpace);
    ats := StripLeftIs(Strip(domain), c => c == '@');
    rest := StripLeft(Strip(domain), c => c == '@');
    assert rest != "" ==> rest[|rest| - 1] == Strip(domain)[|Strip(domain)| - 1];
  }

  class Company {
    const refs: Refs
    var status: Verification
    var domains: seq<string>
    var badges: seq<Badge>
    var audit: seq<AuditRow>

    /** `create_company`: badges are not derived here, whatever domains and refs the caller seeds. */
    constructor (seeded: seq<string>, refs: Refs)
      ensures this.refs == refs && View() == Created(seeded)
    {
      this.refs := refs;
      status, domains, badges, audit := Unverified, seeded, [], [];
    }

    function View(): State
      reads this
    {
      State(status, domains, badges, audit)
    }

    method ReconcileBadges()
      modifies this`badges
      ensures View() == Reconcile(old(View()), refs)
      ensures ShowsBadges(badges, status, domains, refs) && KeepsOrder(old(badges), badges)
    {
      hide Kept, Added, Derived, Removed, ShowsBadges, KeepsOrder;
      ReconcileShows(View(), refs);
      var derived := Derived(status, domains, refs);
      var current := badges;
      NoneYet(current, derived);
      for i := 0 to |current|
        invariant badges == Kept(current[..i], derived) + current[i..]
      {
        RemoveStep(derived, current, i);
        if current[i] !in derived {
          badges := Removed(badges, current[i]);
        }
      }
      assert Kept(current[..|current|], derived) + current[|current|..] == Kept(current, derived) by {
        assert current[..|current|] == current;
      }
      var kept := badges;
      for j := 0 to |SORTED_BADGES|
        invariant badges == kept + Added(current, derived, SORTED_BADGES[..j])
      {
        AttachStep(derived, current, j);
        if SORTED_BADGES[j] in derived && SORTED_BADGES[j] !in badges {
          badges := badges + [SORTED_BADGES[j]];
        }
      }
      assert SORTED_BADGES[..|SORTED_BADGES|] == SORTED_BADGES;
    }

    method Move(target: Verification, actor: string, reason: Option<string>) returns (ok: bool)
      modifies this
      ensures ok == IsAllowed(old(status), target)
      ensures View() == Step(old(View()), refs, Transition(target, actor, reason))
      ensures if ok then
          && status == target && domains == old(domains) && ShowsBadges(badges, status, domains, refs)
          && KeepsOrder(old(badges), badges) && |audit| == |old(audit)| + 1 && audit[..|old(audit)|] == old(audit)
          && var row := audit[|old(audit)|];
             row.actor == actor && row.before == old(status) && row.after == target && row.reason == reason
        else View() == old(View())
    {
      hide AllowedFrom, Reconciled, Derived, ShowsBadges, KeepsOrder;
      var current := status;
      if !IsAllowed(current, target) {
        return false;
      }
      status := target;
      ReconcileBadges();
      audit := audit + [AuditRow(actor, current, target, reason)];
      return true;
    }

    /** Each failing attempt is rolled back to its savepoint; three in a row are reported to the caller. */
    method AttachVerifiedDomain(domain: string, failures: nat) returns (ok: bool)
      modifies this
      ensures ok == (failures < 3)
      ensures View() == Step(old(View()), refs, Attach(domain, failures))
      ensures if ok then
          && status == old(status) && audit == old(audit) && ShowsBadges(badges, status, domains, refs)
          && KeepsOrder(old(badges), badges)
          && domains == old(domains) + if NormalizeDomain(domain) in old(domains) then [] else [NormalizeDomain(domain)]
        else View() == old(View())
    {
      hide NormalizeDomain, Reconciled, Derived, ShowsBadges, KeepsOrder;
      var name := NormalizeDomain(domain);
      for attempt := 0 to ATTACH_ATTEMPTS
        invariant attempt <= failures && View() == old(View())
      {
        var savedDomains, savedBadges := domains, badges;
        if name !in domains {
          domains := domains + [name];
        }
        ReconcileBadges();
        if attempt >= failures {
          return true;
        }
        domains, badges := savedDomains, savedBadges;
      }
      return false;
    }
  }

  lemma NoneYet(current: seq<Badge>, derived: set<Badge>)
    ensures Kept(current[..0], derived) + current[0..] == current && Added(current, derived, SORTED_BADGES[..0]) == []
  {
  }

  lemma RemoveStep(derived: set<Badge>, current: seq<Badge>, i: nat)
    requires i < |current|
    ensures var done := Kept(current[..i], derived) + current[i..];
      (if current[i] in derived then done else Removed(done, current[i]))
      == Kept(current[..i + 1], derived) + current[i + 1..]
  {
    var front := Kept(current[..i], derived);
    assert current[..i + 1] == current[..i] + [current[i]];
    FilterSnoc(b => b in derived, current[..i], current[i]);
    assert current[i..] == [current[i]] + current[i + 1..];
    assert front + current[i..] == front + [current[i]] + current[i + 1..];
    if current[i] !in derived {
      FilterIn(b => b in derived, current[..i], current[i]);
      RemovedBehind(front, current[i], current[i + 1..]);
    }
  }

  lemma AttachStep(derived: set<Badge>, current: seq<Badge>, j: nat)
    requires j < |SORTED_BADGES|
    ensures var added := Added(current, derived, SORTED_BADGES[..j]);
      var b := SORTED_BADGES[j];
      var all := Kept(current, derived) + added;
      Added(current, derived, SORTED_BADGES[..j + 1]) == if b in derived && b !in all then added + [b] else added
  {
    var b := SORTED_BADGES[j];
    var p := (b: Badge) => b in derived && b !in current;
    assert SORTED_BADGES[..j + 1] == SORTED_BADGES[..j] + [b];
    FilterSnoc(p, SORTED_BADGES[..j], b);
    FilterIn(b => b in derived, current, b);
    FilterIn(p, SORTED_BADGES[..j], b);
    SortedUnique(j, b);
  }

  lemma SortedUnique(j: nat, b: Badge)
    requires j < |SORTED_BADGES| && b == SORTED_BADGES[j]
    ensures b !in SORTED_BADGES[..j]
  {
  }

  // ---------------------------------------------------------------- what reconciling achieves

  lemma AllDerivedSorted(status: Verification, domains: seq<string>, refs: Refs, b: Badge)
    requires b in Derived(status, domains, refs)
    ensures b in SORTED_BADGES
  {
    assert SORTED_BADGES[0] == Activity && SORTED_BADGES[1] == BusinessDocumentVerified
      && SORTED_BADGES[2] == DomainVerified;
    assert SORTED_BADGES[3] == EmailVerified && SORTED_BADGES[4] == PaymentVerified;
  }

  lemma ReconciledElements(badges: seq<Badge>, status: Verification, domains: seq<string>, refs: Refs)
    ensures var derived := Derived(status, domains, refs);
      Elements(Reconciled(badges, derived)) == derived
  {
    hide Derived;
    var derived := Derived(status, domains, refs);
    forall b ensures b in Reconciled(badges, derived) <==> b in derived {
      FilterIn(b => b in derived, badges, b);
      FilterIn(b => b in derived && b !in badges, SORTED_BADGES, b);
      if b in derived {
        AllDerivedSorted(status, domains, refs, b);
      }
    }
  }

  lemma {:induction false} FilterUnique<T>(p: T -> bool, s: seq<T>)
    requires Unique(s)
    ensures Unique(Filter(p, s))
  {
    if s != [] {
      assert Unique(s[1..]);
      FilterUnique(p, s[1..]);
      FilterIn(p, s[1..], s[0]);
      UniqueCons(s[0], Filter(p, s[1..]));
    }
  }

  lemma UniqueCons<T>(x: T, s: seq<T>)
    requires Unique(s)
    ensures x !in s ==> Unique([x] + s)
  {
  }

  lemma UniqueAppend<T>(a: seq<T>, b: seq<T>)
    requires Unique(a) && Unique(b) && forall x :: x in a ==> x !in b
    ensures Unique(a + b)
  {
    var s := a + b;
    forall i, j | 0 <= i < j < |s| ensures s[i] != s[j] {
      if i < |a| <= j {
        assert s[i] in a && s[j] in b;
      }
    }
  }

  lemma ReconciledUnique(badges: seq<Badge>, derived: set<Badge>)
    requires Unique(badges)
    ensures Unique(Reconciled(badges, derived))
  {
    hide Filter;
    var p, q := (b: Badge) => b in derived, (b: Badge) => b in derived && b !in badges;
    FilterUnique(p, badges);
    assert Unique(SORTED_BADGES);
    FilterUnique(q, SORTED_BADGES);
    forall x | x in Filter(p, badges) ensures x !in Filter(q, SORTED_BADGES) {
      FilterIn(p, badges, x);
      FilterIn(q, SORTED_BADGES, x);
    }
    UniqueAppend(Filter(p, badges), Filter(q, SORTED_BADGES));
  }

  // ---------------------------------------------------------------- whole runs

  function Created(seeded: seq<string>): State { State(Unverified, seeded, [], []) }

  function Run(seeded: seq<string>, refs: Refs, actions: seq<Action>): State {
    if actions == [] then Created(seeded)
    else Step(Run(seeded, refs, actions[..|actions| - 1]), refs, actions[|actions| - 1])
  }

  /** Some action of the run was carried out. */
  predicate Touched(seeded: seq<string>, refs: Refs, actions: seq<Action>) {
    actions != []
    && (|| Touched(seeded, refs, actions[..|actions| - 1])
        || Succeeds(Run(seeded, refs, actions[..|actions| - 1]), actions[|actions| - 1]))
  }

  predicate BadgesMatch(s: State, refs: Refs) { Elements(s.badges) == Derived(s.status, s.domains, refs) }

  /** The rows lead along allowed edges, and a verified row stands right behind a pending one. */
  predicate RowFits(audit: seq<AuditRow>, i: nat)
    requires i < |audit|
  {
    && audit[i].before == (if i == 0 then Unverified else audit[i - 1].after)
    && IsAllowed(audit[i].before, audit[i].after)
    && (audit[i].after == Verified ==> i > 0 && audit[i - 1].after == Pending)
  }

  ghost predicate Replays(audit: seq<AuditRow>, status: Verification) {
    && (forall i :: 0 <= i < |audit| ==> RowFits(audit, i))
    && status == if audit == [] then Unverified else audit[|audit| - 1].after
  }

  lemma ReplaysAppend(audit: seq<AuditRow>, status: Verification, row: AuditRow)
    requires Replays(audit, status) && row.before == status && IsAllowed(status, row.after)
    ensures Replays(audit + [row], row.after)
  {
    var longer := audit + [row];
    forall i | 0 <= i < |longer| ensures RowFits(longer, i) {
      assert i < |audit| ==> RowFits(audit, i);
    }
  }

  lemma StepKeeps(s: State, refs: Refs, a: Action)
    requires Unique(s.badges) && Replays(s.audit, s.status)
    ensures Unique(Step(s, refs, a).badges) && Replays(Step(s, refs, a).audit, Step(s, refs, a).status)
    ensures Succeeds(s, a) ==> BadgesMatch(Step(s, refs, a), refs)
  {
    hide Reconciled, Replays, Derived, Unique, NormalizeDomain, AllowedFrom, Elements;
    var after := Step(s, refs, a);
    ReconciledUnique(s.badges, Derived(after.status, after.domains, refs));
    ReconciledElements(s.badges, after.status, after.domains, refs);
    if a.Transition? && Succeeds(s, a) {
      ReplaysAppend(s.audit, s.status, AuditRow(a.actor, s.status, a.target, a.reason));
    }
  }

  lemma NewCompany(seeded: seq<string>)
    ensures Unique(Created(seeded).badges) && Replays([], Unverified)
  {
  }

  lemma {:induction false} RunKeeps(seeded: seq<string>, refs: Refs, actions: seq<Action>)
    ensures var s := Run(seeded, refs, actions);
      Unique(s.badges) && Replays(s.audit, s.status) && (Touched(seeded, refs, actions) ==> BadgesMatch(s, refs))
    ensures !Touched(seeded, refs, actions) ==> Run(seeded, refs, actions) == Created(seeded)
  {
    hide Unique, Replays, BadgesMatch;
    if actions == [] {
      NewCompany(seeded);
    } else {
      hide Step, Succeeds;
      RunKeeps(seeded, refs, actions[..|actions| - 1]);
      StepKeeps(Run(seeded, refs, actions[..|actions| - 1]), refs, actions[|actions| - 1]);
      FailedStep(Run(seeded, refs, actions[..|actions| - 1]), refs, actions[|actions| - 1]);
    }
  }

  lemma FailedStep(s: State, refs: Refs, a: Action)
    ensures !Succeeds(s, a) ==> Step(s, refs, a) == s
  {
  }

  /**
   * After every run the audit rows replay to the current state and no badge is listed twice. The badges are
   * the derived ones if and only if an action was carried out or nothing was derived at creation.
   */
  lemma CompanyRuns(seeded: seq<string>, refs: Refs, actions: seq<Action>)
    ensures var s := Run(seeded, refs, actions);
      && Replays(s.audit, s.status) && Unique(s.badges)
      && (BadgesMatch(s, refs) <==> Touched(seeded, refs, actions) || Derived(Unverified, seeded, refs) == {})
  {
    hide Replays, Run, Touched, Unique;
    RunKeeps(seeded, refs, actions);
    if !Touched(seeded, refs, actions) {
      assert Elements<Badge>([]) == {};
    }
  }

  /** The badge for checked documents is shown exactly while the last audit row says verified. */
  lemma DocumentBadge(seeded: seq<string>, refs: Refs, actions: seq<Action>)
    ensures var s := Run(seeded, refs, actions);
      BusinessDocumentVerified in s.badges <==> s.audit != [] && s.audit[|s.audit| - 1].after == Verified
  {
    hide Run, Touched, RowFits;
    RunKeeps(seeded, refs, actions);
    var s := Run(seeded, refs, actions);
    assert BusinessDocumentVerified in Elements(s.badges) <==> BusinessDocumentVerified in s.badges;
  }

  /** Attached domains are never lost, and a list that starts without repetition stays so. */
  lemma {:induction false} DomainsGrow(seeded: seq<string>, refs: Refs, actions: seq<Action>)
    ensures seeded <= Run(seeded, refs, actions).domains
    ensures Unique(seeded) ==> Unique(Run(seeded, refs, actions).domains)
  {
    hide Reconcile, Succeeds, NormalizeDomain;
    if actions != [] {
      DomainsGrow(seeded, refs, actions[..|actions| - 1]);
      DomainsStep(Run(seeded, refs, actions[..|actions| - 1]), refs, actions[|actions| - 1]);
    }
  }

  lemma DomainsStep(s: State, refs: Refs, a: Action)
    ensures s.domains <= Step(s, refs, a).domains
    ensures Unique(s.domains) ==> Unique(Step(s, refs, a).domains)
    ensures a.Attach? && Succeeds(s, a) ==> NormalizeDomain(a.domain) in Step(s, refs, a).domains
    ensures a.Attach? ==> Step(s, refs, a).audit == s.audit && Step(s, refs, a).status == s.status
  {
    hide NormalizeDomain, Reconciled, Derived;
  }
}
