/** Alembic revision 005: legacy profiles become companies, status histories become audit rows, and back. */
module Migration {
  import opened Text
  import opened LineText
  import opened Slugs

  type Uuid = nat

  const MARKET: string := "mz"
  const LEGACY_TYPE: string := "Company"
  const COMPANY_MARKER: string := "migrated_from_profile"
  const AUDIT_MARKER: string := "_migration"
  const REVISION: string := "005_legacy_profiles_jobs"

  // ---------------------------------------------------------------- rows

  datatype Json = Null | Bool(b: bool) | Num(n: int) | Str(s: string) | Arr(items: seq<Json>)
    | Obj(fields: map<string, Json>)

  datatype Profile = Profile(id: Uuid, userId: Uuid, name: string, profileType: string)

  datatype Company = Company(id: Uuid, name: string, slug: string, market: string, verificationStatus: string,
    createdBy: Option<Uuid>, externalRefs: Json)

  datatype Membership = Membership(id: Uuid, userId: Uuid, companyId: Uuid, role: string, status: string)

  /** A job's status_history column: SQL NULL or a JSON value. */
  datatype Job = Job(id: Uuid, statusHistory: Option<Json>)

  datatype AuditLog = AuditLog(id: Uuid, actorId: Option<Uuid>, actorLabel: Option<string>, action: string,
    targetType: string, targetId: Uuid, before: Option<Json>, after: Option<Json>, createdAt: int)

  datatype Tables = Tables(users: seq<Uuid>, profiles: seq<Profile>, companies: seq<Company>,
    memberships: seq<Membership>, jobs: seq<Job>, auditLogs: seq<AuditLog>)

  /**
   * What the migration takes from its surroundings: uuid4 (`ids`, the n-th fresh id), Unicode folding,
   * `str` of a JSON value, the UUID and ISO-8601 parsers and the column default of created_at.
   */
  datatype Env = Env(ids: nat -> Uuid, fold: string -> string, str: Json -> string,
    parseUuid: string -> Option<Uuid>, parseIso: string -> Option<int>, now: int)

  // ---------------------------------------------------------------- conversions of one value

  function Lookup(fields: map<string, Json>, key: string): Json { if key in fields then fields[key] else Null }

  function SplitActor(env: Env, actor: Json, known: set<Uuid>): (Option<Uuid>, Option<string>) {
    var text := Strip(env.str(actor));
    if actor == Null || text == "" then (None, None)
    else
      match env.parseUuid(text)
      case None => (None, Some(text))
      case Some(id) => if id in known then (Some(id), None) else (None, Some(text))
  }

  function ParseTimestamp(env: Env, at: Json): Option<int> {
    if !at.Str? || at.s == "" then None
    else
      var text := Strip(at.s);
      env.parseIso(if text != "" && text[|text| - 1] == 'Z' then text[..|text| - 1] + "+00:00" else text)
  }

  function AuditRow(env: Env, known: set<Uuid>, id: Uuid, job: Uuid, entry: map<string, Json>): AuditLog {
    var (actorId, actorLabel) := SplitActor(env, Lookup(entry, "by"), known);
    var before := if Lookup(entry, "from") == Null then None else Some(Obj(map["status" := Lookup(entry, "from")]));
    var after := map["status" := Lookup(entry, "to"), AUDIT_MARKER := Str(REVISION)];
    var reasoned := if Lookup(entry, "reason") == Null then after else after["reason" := Lookup(entry, "reason")];
    var time := ParseTimestamp(env, Lookup(entry, "at"));
    AuditLog(id, actorId, actorLabel, "job.status_changed", "job", job, before, Some(Obj(reasoned)),
      if time.Some? then time.value else env.now)
  }

  function NewCompany(env: Env, id: Uuid, profile: Profile, slug: string): Company {
    Company(id, profile.name, slug, MARKET, "unverified", Some(profile.userId),
      Obj(map[COMPANY_MARKER := Str(env.str(Num(profile.id)))]))
  }

  // ---------------------------------------------------------------- upgrade, as a function

  function LegacyProfiles(profiles: seq<Profile>): seq<Profile> {
    Filter(p => IsLegacy(p), profiles)
  }

  predicate IsLegacy(p: Profile) { p.profileType == LEGACY_TYPE }

  function TakenSlugs(companies: seq<Company>): set<string> {
    set i | 0 <= i < |companies| && companies[i].market == MARKET :: companies[i].slug
  }

  /** The slug of a profile's company: the first free candidate. */
  function SlugFor(env: Env, profile: Profile, taken: set<string>): string {
    var base := Slugify(env.fold(profile.name));
    Candidate(base, FirstFree(base, taken))
  }

  /** The companies of the given profiles; profile i takes the ids 2i and 2i + 1. */
  function NewCompanies(env: Env, profiles: seq<Profile>, taken: set<string>, i: nat): seq<Company>
    requires i <= |profiles|
    decreases |profiles| - i
  {
    if i == |profiles| then []
    else
      var slug := SlugFor(env, profiles[i], taken);
      [NewCompany(env, env.ids(2 * i), profiles[i], slug)] + NewCompanies(env, profiles, taken + {slug}, i + 1)
  }

  function NewMembership(env: Env, profiles: seq<Profile>, i: nat): Membership
    requires i < |profiles|
  {
    Membership(env.ids(2 * i + 1), profiles[i].userId, env.ids(2 * i), "org_owner", "active")
  }

  function NewMemberships(env: Env, profiles: seq<Profile>): seq<Membership> {
    seq(|profiles|, i requires 0 <= i < |profiles| => NewMembership(env, profiles, i))
  }

  /** The well-formed entries of a job's history, in order. */
  function Entries(job: Job): seq<map<string, Json>> {
    if job.statusHistory.Some? && job.statusHistory.value.Arr? then ObjectsOf(job.statusHistory.value.items) else []
  }

  function ObjectsOf(items: seq<Json>): seq<map<string, Json>> {
    if items == [] then [] else (if items[0].Obj? then [items[0].fields] else []) + ObjectsOf(items[1..])
  }

  /** The audit rows of some entries of one job; the first row takes id number `n`. */
  function EntryRows(env: Env, known: set<Uuid>, n: nat, job: Uuid, entries: seq<map<string, Json>>): seq<AuditLog> {
    seq(|entries|, i requires 0 <= i < |entries| => AuditRow(env, known, env.ids(n + i), job, entries[i]))
  }

  function JobRows(env: Env, known: set<Uuid>, n: nat, jobs: seq<Job>): seq<AuditLog>
    decreases |jobs|
  {
    if jobs == [] then []
    else EntryRows(env, known, n, jobs[0].id, Entries(jobs[0])) + JobRows(env, known, n + |Entries(jobs[0])|, jobs[1..])
  }

  function Users(users: seq<Uuid>): set<Uuid> { set i | 0 <= i < |users| :: users[i] }

  function Up(env: Env, t: Tables): Tables {
    var legacy := LegacyProfiles(t.profiles);
    t.(companies := t.companies + NewCompanies(env, legacy, TakenSlugs(t.companies), 0),
       memberships := t.memberships + NewMemberships(env, legacy),
       auditLogs := t.auditLogs + JobRows(env, Users(t.users), 2 * |legacy|, t.jobs))
  }

  // ---------------------------------------------------------------- downgrade, as a function

  /** `external_refs ->> 'migrated_from_profile' IS NOT NULL`. */
  predicate Migrated(c: Company) {
    c.externalRefs.Obj? && COMPANY_MARKER in c.externalRefs.fields && c.externalRefs.fields[COMPANY_MARKER] != Null
  }

  /** `after ->> '_migration' = '005_legacy_profiles_jobs'`. */
  predicate Backfilled(a: AuditLog) {
    a.after.Some? && a.after.value.Obj? && AUDIT_MARKER in a.after.value.fields
    && a.after.value.fields[AUDIT_MARKER] == Str(REVISION)
  }

  function MigratedIds(companies: seq<Company>): set<Uuid> {
    set i | 0 <= i < |companies| && Migrated(companies[i]) :: companies[i].id
  }

  function Down(t: Tables): Tables {
    var ids := MigratedIds(t.companies);
    t.(companies := Filter((c: Company) => c.id !in ids, t.companies),
       memberships := Filter((m: Membership) => m.companyId !in ids, t.memberships),
       auditLogs := Filter(a => !Backfilled(a), t.auditLogs))
  }

  // ---------------------------------------------------------------- the migration itself

  class Database {
    var users: seq<Uuid>
    var profiles: seq<Profile>
    var companies: seq<Company>
    var memberships: seq<Membership>
    var jobs: seq<Job>
    var auditLogs: seq<AuditLog>

    function State(): Tables
      reads this
    {
      Tables(users, profiles, companies, memberships, jobs, auditLogs)
    }

    constructor (t: Tables)
      ensures State() == t
    {
      users, profiles, companies, memberships, jobs, auditLogs :=
        t.users, t.profiles, t.companies, t.memberships, t.jobs, t.auditLogs;
    }

    method Upgrade(env: Env)
      modifies this
      ensures State() == Up(env, old(State()))
    {
      ConvertProfiles(env);
      BackfillHistories(env, 2 * |LegacyProfiles(profiles)|);
    }

    /** Step 1: a company and an owner membership for every legacy profile. */
    method ConvertProfiles(env: Env)
      modifies this`companies, this`memberships
      ensures companies == old(companies) + NewCompanies(env, LegacyProfiles(profiles), TakenSlugs(old(companies)), 0)
      ensures memberships == old(memberships) + NewMemberships(env, LegacyProfiles(profiles))
    {
      hide Slugify, Candidate, NewCompanies, NewMemberships, NewCompany, Filter, FirstFree, TakenSlugs;
      var marketSlugs := TakenSlugs(companies);
      var legacy := LegacyProfiles(profiles);
      MembershipsUpTo(env, legacy);
      for i := 0 to |legacy|
        invariant companies + NewCompanies(env, legacy, marketSlugs, i)
          == old(companies) + NewCompanies(env, legacy, TakenSlugs(old(companies)), 0)
        invariant memberships == old(memberships) + NewMemberships(env, legacy)[..i]
      {
        var profile := legacy[i];
        var slug, taken := UniqueSlug(Slugify(env.fold(profile.name)), marketSlugs);
        NewCompaniesStep(env, legacy, marketSlugs, i);
        ConcatAssoc(companies, [NewCompany(env, env.ids(2 * i), profile, slug)],
          NewCompanies(env, legacy, taken, i + 1));
        marketSlugs := taken;
        companies := companies + [NewCompany(env, env.ids(2 * i), profile, slug)];
        memberships := memberships + [NewMembership(env, legacy, i)];
      }
      NewCompaniesEnd(env, legacy, marketSlugs);
    }

    /** Step 3: an audit row for every well-formed history entry, in order. */
    method BackfillHistories(env: Env, firstId: nat)
      modifies this`auditLogs
      ensures auditLogs == old(auditLogs) + JobRows(env, Users(users), firstId, jobs)
    {
      hide AuditRow, EntryRows, Entries;
      var known := Users(users);
      var nextId: nat := firstId;
      for j := 0 to |jobs|
        invariant auditLogs + JobRows(env, known, nextId, jobs[j..])
          == old(auditLogs) + JobRows(env, known, firstId, jobs)
      {
        assert jobs[j..][1..] == jobs[j + 1..];
        ghost var rows := EntryRows(env, known, nextId, jobs[j].id, Entries(jobs[j]));
        ConcatAssoc(auditLogs, rows, JobRows(env, known, nextId + |Entries(jobs[j])|, jobs[j + 1..]));
        nextId := BackfillJob(env, known, nextId, jobs[j]);
      }
    }

    method BackfillJob(env: Env, known: set<Uuid>, firstId: nat, job: Job) returns (nextId: nat)
      modifies this`auditLogs
      ensures auditLogs == old(auditLogs) + EntryRows(env, known, firstId, job.id, Entries(job))
      ensures nextId == firstId + |Entries(job)|
    {
      hide AuditRow;
      nextId := firstId;
      if !job.statusHistory.Some? || !job.statusHistory.value.Arr? {
        return;
      }
      var history := job.statusHistory.value.items;
      for k := 0 to |history|
        invariant nextId == firstId + |ObjectsOf(history[..k])|
        invariant auditLogs == old(auditLogs) + EntryRows(env, known, firstId, job.id, ObjectsOf(history[..k]))
      {
        ObjectsSnoc(history[..k], history[k]);
        assert history[..k + 1] == history[..k] + [history[k]];
        if history[k].Obj? {
          auditLogs := auditLogs + [AuditRow(env, known, env.ids(nextId), job.id, history[k].fields)];
          nextId := nextId + 1;
        }
      }
      assert history[..|history|] == history;
    }

    method Downgrade()
      modifies this
      ensures State() == Down(old(State()))
    {
      auditLogs := Filter(a => !Backfilled(a), auditLogs);
      var ids := MigratedIds(companies);
      if ids == {} {
        FilterAll((m: Membership) => m.companyId !in ids, memberships);
        FilterAll((c: Company) => c.id !in ids, companies);
      } else {
        memberships := Filter((m: Membership) => m.companyId !in ids, memberships);
        companies := Filter((c: Company) => c.id !in ids, companies);
      }
    }
  }

  lemma MembershipsUpTo(env: Env, profiles: seq<Profile>)
    ensures |NewMemberships(env, profiles)| == |profiles|
    ensures NewMemberships(env, profiles)[..0] == []
      && NewMemberships(env, profiles)[..|profiles|] == NewMemberships(env, profiles)
    ensures forall i :: 0 <= i < |profiles| ==>
      NewMemberships(env, profiles)[..i + 1] == NewMemberships(env, profiles)[..i] + [NewMembership(env, profiles, i)]
  {
  }

  lemma NewCompaniesStep(env: Env, profiles: seq<Profile>, taken: set<string>, i: nat)
    requires i < |profiles|
    ensures var slug := SlugFor(env, profiles[i], taken);
      NewCompanies(env, profiles, taken, i)
        == [NewCompany(env, env.ids(2 * i), profiles[i], slug)] + NewCompanies(env, profiles, taken + {slug}, i + 1)
  {
    hide SlugFor, NewCompany;
  }

  lemma NewCompaniesEnd(env: Env, profiles: seq<Profile>, taken: set<string>)
    ensures NewCompanies(env, profiles, taken, |profiles|) == []
  {
  }

  lemma {:induction false} ObjectsSnoc(items: seq<Json>, item: Json)
    ensures ObjectsOf(items + [item]) == ObjectsOf(items) + (if item.Obj? then [item.fields] else [])
  {
    if items == [] {
      assert [] + [item] == [item];
      assert [item][1..] == [];
    } else {
      ObjectsSnoc(items[1..], item);
      assert (items + [item])[1..] == items[1..] + [item] && (items + [item])[0] == items[0];
      ConcatAssoc(if items[0].Obj? then [items[0].fields] else [], ObjectsOf(items[1..]),
        if item.Obj? then [item.fields] else []);
    }
  }

  // ---------------------------------------------------------------- what the new rows are

  lemma {:induction false} NewCompaniesShape(env: Env, profiles: seq<Profile>, taken: set<string>, i: nat)
    requires i <= |profiles|
    ensures var r := NewCompanies(env, profiles, taken, i);
      && |r| == |profiles| - i
      && (forall k :: 0 <= k < |r| ==> r[k] == NewCompany(env, env.ids(2 * (i + k)), profiles[i + k], r[k].slug))
      && (forall k :: 0 <= k < |r| ==> r[k].slug !in taken)
      && (forall j, k :: 0 <= j < k < |r| ==> r[j].slug != r[k].slug)
    decreases |profiles| - i
  {
    hide SlugFor, NewCompany, NewCompanies;
    if i < |profiles| {
      var slug := SlugFor(env, profiles[i], taken);
      SlugIsFree(env, profiles[i], taken);
      NewCompaniesShape(env, profiles, taken + {slug}, i + 1);
      NewCompaniesStep(env, profiles, taken, i);
      CompanyHasSlug(env, env.ids(2 * i), profiles[i], slug);
      var rest, r := NewCompanies(env, profiles, taken + {slug}, i + 1), NewCompanies(env, profiles, taken, i);
      forall k | 0 < k < |r|
        ensures r[k] == NewCompany(env, env.ids(2 * (i + k)), profiles[i + k], r[k].slug)
          && r[k].slug !in taken + {slug}
      {
        assert r[k] == rest[k - 1] && i + 1 + (k - 1) == i + k;
      }
      assert forall k :: 0 < k < |r| ==> r[k] == rest[k - 1];
    } else {
      NewCompaniesEnd(env, profiles, taken);
    }
  }

  lemma CompanyHasSlug(env: Env, id: Uuid, profile: Profile, slug: string)
    ensures NewCompany(env, id, profile, slug).slug == slug && NewCompany(env, id, profile, slug).id == id
    ensures NewCompany(env, id, profile, slug).market == MARKET && Migrated(NewCompany(env, id, profile, slug))
  {
  }

  lemma SlugIsFree(env: Env, profile: Profile, taken: set<string>)
    ensures SlugFor(env, profile, taken) !in taken
  {
    hide Slugify, Candidate;
  }

  /** After the upgrade no market has two companies of one slug, if none had before. */
  ghost predicate UniqueSlugs(companies: seq<Company>) {
    forall j, k :: 0 <= j < k < |companies| && companies[j].market == companies[k].market ==>
      companies[j].slug != companies[k].slug
  }

  lemma UpgradeKeepsSlugsUnique(env: Env, t: Tables)
    requires UniqueSlugs(t.companies)
    ensures UniqueSlugs(Up(env, t).companies)
  {
    hide NewCompanies;
    var taken := TakenSlugs(t.companies);
    var legacy := LegacyProfiles(t.profiles);
    NewCompaniesShape(env, legacy, taken, 0);
    var added := NewCompanies(env, legacy, taken, 0);
    var all := t.companies + added;
    forall j, k | 0 <= j < k < |all| && all[j].market == all[k].market ensures all[j].slug != all[k].slug {
      if j < |t.companies| <= k {
        assert all[k] == added[k - |t.companies|];
        assert all[j].slug in taken;
      }
    }
  }

  /**
   * Each legacy profile, in order, gains one company tagged with its id and one active owner membership in that
   * company. The company's slug is the first of base, base-2, base-3, ... that no company before it has in the market.
   */
  lemma UpgradeGains(env: Env, t: Tables, i: nat)
    requires i < |Filter((p: Profile) => p.profileType == "Company", t.profiles)|
    ensures var u, legacy := Up(env, t), Filter((p: Profile) => p.profileType == "Company", t.profiles);
      && |u.companies| == |t.companies| + |legacy| && |u.memberships| == |t.memberships| + |legacy|
      && var c, m := u.companies[|t.companies| + i], u.memberships[|t.memberships| + i];
         && c.name == legacy[i].name && c.createdBy == Some(legacy[i].userId) && c.market == MARKET
         && c.verificationStatus == "unverified" && Migrated(c)
         && c.externalRefs == Obj(map[COMPANY_MARKER := Str(env.str(Num(legacy[i].id)))])
         && m.userId == legacy[i].userId && m.companyId == c.id && m.role == "org_owner" && m.status == "active"
         && GetsFirstFree(u.companies[..|t.companies| + i], Slugify(env.fold(c.name)), c.slug)
    ensures t.companies <= Up(env, t).companies && t.memberships <= Up(env, t).memberships
      && t.auditLogs <= Up(env, t).auditLogs
  {
    hide NewCompanies, JobRows, Slugify, GetsFirstFree;
    var legacy, taken := LegacyProfiles(t.profiles), TakenSlugs(t.companies);
    FilterSame(p => IsLegacy(p), (p: Profile) => p.profileType == "Company", t.profiles);
    NewCompaniesShape(env, legacy, taken, 0);
    SlugFrom(env, legacy, t.companies, 0, i);
    var added := NewCompanies(env, legacy, taken, 0);
    assert (t.companies + added)[..|t.companies| + i] == t.companies + added[..i];
  }

  function Suffixed(base: string, n: nat): string { base + "-" + Dec(n) }

  /** The slug is the base, or the base with the suffix `n`, and no company has it while some have all earlier ones. */
  ghost predicate FreeSlug(companies: seq<Company>, base: string, slug: string, n: nat) {
    && n >= 1 && !HasSlug(companies, slug)
    && slug == (if n == 1 then base else Suffixed(base, n))
    && (n > 1 ==> HasSlug(companies, base))
    && (forall m :: 2 <= m < n ==> HasSlug(companies, Suffixed(base, m)))
  }

  ghost predicate GetsFirstFree(companies: seq<Company>, base: string, slug: string) {
    exists n: nat :: FreeSlug(companies, base, slug, n)
  }

  ghost predicate HasSlug(companies: seq<Company>, slug: string) {
    exists i :: 0 <= i < |companies| && companies[i].market == "mz" && companies[i].slug == slug
  }

  lemma TakenMeans(companies: seq<Company>, slug: string)
    ensures slug in TakenSlugs(companies) <==> HasSlug(companies, slug)
  {
  }

  lemma TakenSnoc(companies: seq<Company>, c: Company)
    requires c.market == MARKET
    ensures TakenSlugs(companies + [c]) == TakenSlugs(companies) + {c.slug}
  {
    var longer := companies + [c];
    forall slug | slug in TakenSlugs(companies) + {c.slug} ensures slug in TakenSlugs(longer) {
      if slug == c.slug {
        assert longer[|companies|] == c;
      } else {
        var i :| 0 <= i < |companies| && companies[i].market == MARKET && companies[i].slug == slug;
        assert longer[i] == companies[i];
      }
    }
  }

  lemma FirstIsFree(companies: seq<Company>, base: string, k: nat)
    requires IsFirstFree(base, TakenSlugs(companies), k)
    ensures FreeSlug(companies, base, Candidate(base, k), k + 1)
  {
    hide HasSlug, TakenSlugs;
    var taken := TakenSlugs(companies);
    TakenMeans(companies, Candidate(base, k));
    TakenMeans(companies, base);
    assert k > 0 ==> Candidate(base, 0) in taken;
    forall m | 2 <= m < k + 1 ensures HasSlug(companies, Suffixed(base, m)) {
      assert Candidate(base, m - 1) in taken;
      TakenMeans(companies, Candidate(base, m - 1));
    }
  }

  /** The slug of a new company is the first that is free among those before it. */
  lemma {:induction false} SlugFrom(env: Env, profiles: seq<Profile>, before: seq<Company>, from: nat, i: nat)
    requires from + i < |profiles|
    ensures var added := NewCompanies(env, profiles, TakenSlugs(before), from);
      |added| == |profiles| - from
      && GetsFirstFree(before + added[..i], Slugify(env.fold(profiles[from + i].name)), added[i].slug)
    decreases i
  {
    hide NewCompanies, Slugify, GetsFirstFree, TakenSlugs, SlugFor, NewCompany, IsFirstFree, Candidate;
    var taken := TakenSlugs(before);
    var slug := SlugFor(env, profiles[from], taken);
    var first := NewCompany(env, env.ids(2 * from), profiles[from], slug);
    NewCompaniesStep(env, profiles, taken, from);
    NewCompaniesShape(env, profiles, taken, from);
    CompanyHasSlug(env, env.ids(2 * from), profiles[from], slug);
    var added := NewCompanies(env, profiles, taken, from);
    if i == 0 {
      FirstSlug(env, profiles[from], before);
      assert before + added[..0] == before;
    } else {
      TakenSnoc(before, first);
      SlugFrom(env, profiles, before + [first], from + 1, i - 1);
      var rest := NewCompanies(env, profiles, taken + {slug}, from + 1);
      assert before + added[..i] == before + [first] + rest[..i - 1];
    }
  }

  lemma FirstSlug(env: Env, profile: Profile, before: seq<Company>)
    ensures GetsFirstFree(before, Slugify(env.fold(profile.name)), SlugFor(env, profile, TakenSlugs(before)))
  {
    hide FreeSlug, Slugify, TakenSlugs, Candidate;
    var base := Slugify(env.fold(profile.name));
    FirstIsFree(before, base, FirstFree(base, TakenSlugs(before)));
  }

  // ---------------------------------------------------------------- audit rows

  lemma AuditRowMarked(env: Env, known: set<Uuid>, id: Uuid, job: Uuid, entry: map<string, Json>)
    ensures Backfilled(AuditRow(env, known, id, job, entry)) && AuditRow(env, known, id, job, entry).targetId == job
  {
    hide SplitActor, ParseTimestamp;
    assert AUDIT_MARKER[0] == '_' && "reason"[0] == 'r';
  }

  /** What a history entry says about who made the change. */
  function ActorText(env: Env, entry: map<string, Json>): string {
    if Lookup(entry, "by") == Null then "" else Strip(env.str(Lookup(entry, "by")))
  }

  /** The same words, or the same known user in another spelling. */
  predicate SameActor(env: Env, known: set<Uuid>, text: string, other: string) {
    text == other
    || (&& text != "" && other != "" && env.parseUuid(text) == env.parseUuid(other)
        && env.parseUuid(text).Some? && env.parseUuid(text).value in known)
  }

  lemma RowsAgree(env: Env, known: set<Uuid>, a: map<string, Json>, b: map<string, Json>, i: Uuid, j: Uuid, job: Uuid,
      other: Uuid)
    ensures var r, q := AuditRow(env, known, i, job, a), AuditRow(env, known, j, other, b);
      && (r.actorId == q.actorId && r.actorLabel == q.actorLabel
          <==> SameActor(env, known, ActorText(env, a), ActorText(env, b)))
      && (r.actorId.None? || r.actorLabel.None?)
      && (r.actorId.None? && r.actorLabel.None? <==> ActorText(env, a) == "")
      && (r.actorId.Some? ==> r.actorId.value in known)
  {
    hide Strip, ParseTimestamp;
  }

  /** The history entry a backfilled row was made from. */
  lemma {:induction false} RowSource(env: Env, known: set<Uuid>, n: nat, jobs: seq<Job>, k: nat)
    returns (job: Job, entry: map<string, Json>)
    requires k < |JobRows(env, known, n, jobs)|
    ensures job in jobs && entry in Entries(job)
    ensures JobRows(env, known, n, jobs)[k] == AuditRow(env, known, env.ids(n + k), job.id, entry)
    decreases |jobs|
  {
    hide AuditRow, Entries;
    var m := |Entries(jobs[0])|;
    if k < m {
      job, entry := jobs[0], Entries(jobs[0])[k];
    } else {
      job, entry := RowSource(env, known, n + m, jobs[1..], k - m);
    }
  }

  /**
   * Who made a change is never lost: any two rows the upgrade backfills, whatever their jobs, have the same actor
   * id and label if and only if their history entries name the same actor. A row has an id of a known user or a
   * label, never both, and neither only if its entry names nobody.
   */
  lemma AttributionKept(env: Env, t: Tables, k: nat, l: nat)
    returns (job: Job, entry: map<string, Json>, other: Job, otherEntry: map<string, Json>)
    requires |t.auditLogs| <= k < |Up(env, t).auditLogs| && |t.auditLogs| <= l < |Up(env, t).auditLogs|
    ensures job in t.jobs && entry in Entries(job) && Up(env, t).auditLogs[k].targetId == job.id
    ensures other in t.jobs && otherEntry in Entries(other) && Up(env, t).auditLogs[l].targetId == other.id
    ensures var r, q := Up(env, t).auditLogs[k], Up(env, t).auditLogs[l];
      && (r.actorId == q.actorId && r.actorLabel == q.actorLabel
          <==> SameActor(env, Users(t.users), ActorText(env, entry), ActorText(env, otherEntry)))
      && (r.actorId.None? || r.actorLabel.None?)
      && (r.actorId.None? && r.actorLabel.None? <==> ActorText(env, entry) == "")
      && (r.actorId.Some? ==> r.actorId.value in t.users)
  {
    hide NewCompanies, AuditRow, JobRows, SameActor, ActorText, Entries;
    var known, n := Users(t.users), 2 * |LegacyProfiles(t.profiles)|;
    var i, j := k - |t.auditLogs|, l - |t.auditLogs|;
    job, entry := RowSource(env, known, n, t.jobs, i);
    other, otherEntry := RowSource(env, known, n, t.jobs, j);
    RowsAgree(env, known, entry, otherEntry, env.ids(n + i), env.ids(n + j), job.id, other.id);
    AuditRowMarked(env, known, env.ids(n + i), job.id, entry);
    AuditRowMarked(env, known, env.ids(n + j), other.id, otherEntry);
  }

  lemma {:induction false} JobRowsMarked(env: Env, known: set<Uuid>, n: nat, jobs: seq<Job>)
    ensures forall i :: 0 <= i < |JobRows(env, known, n, jobs)| ==> Backfilled(JobRows(env, known, n, jobs)[i])
    decreases |jobs|
  {
    hide AuditRow, Entries, Backfilled;
    if jobs != [] {
      JobRowsMarked(env, known, n + |Entries(jobs[0])|, jobs[1..]);
      forall i | 0 <= i < |Entries(jobs[0])|
        ensures Backfilled(EntryRows(env, known, n, jobs[0].id, Entries(jobs[0]))[i])
      {
        AuditRowMarked(env, known, env.ids(n + i), jobs[0].id, Entries(jobs[0])[i]);
      }
    }
  }

  predicate ForJob(job: Uuid, row: AuditLog) { row.targetId == job }

  lemma EntryRowsFor(env: Env, known: set<Uuid>, n: nat, job: Uuid, entries: seq<map<string, Json>>, target: Uuid)
    ensures Filter(r => ForJob(target, r), EntryRows(env, known, n, job, entries))
      == if job == target then EntryRows(env, known, n, job, entries) else []
  {
    hide AuditRow, Backfilled;
    var rows := EntryRows(env, known, n, job, entries);
    forall i | 0 <= i < |entries| ensures rows[i].targetId == job {
      AuditRowMarked(env, known, env.ids(n + i), job, entries[i]);
    }
    if job == target {
      FilterAll(r => ForJob(target, r), rows);
    } else {
      FilterNone(r => ForJob(target, r), rows);
    }
  }

  ghost predicate DistinctJobs(jobs: seq<Job>) { forall j, k :: 0 <= j < k < |jobs| ==> jobs[j].id != jobs[k].id }

  /** The backfilled rows of one job are the rows of its well-formed entries, in history order, and no others. */
  lemma {:induction false} BackfillInOrder(env: Env, known: set<Uuid>, n: nat, jobs: seq<Job>, j: nat)
    returns (start: nat)
    requires DistinctJobs(jobs) && j < |jobs|
    ensures Filter(r => ForJob(jobs[j].id, r), JobRows(env, known, n, jobs))
      == EntryRows(env, known, start, jobs[j].id, Entries(jobs[j]))
    decreases |jobs|
  {
    hide AuditRow, Entries, EntryRows;
    var target := jobs[j].id;
    var head := EntryRows(env, known, n, jobs[0].id, Entries(jobs[0]));
    var tail := JobRows(env, known, n + |Entries(jobs[0])|, jobs[1..]);
    FilterAppend(r => ForJob(target, r), head, tail);
    EntryRowsFor(env, known, n, jobs[0].id, Entries(jobs[0]), target);
    if j == 0 {
      start := n;
      OtherJobs(env, known, n + |Entries(jobs[0])|, jobs[1..], target);
    } else {
      start := BackfillInOrder(env, known, n + |Entries(jobs[0])|, jobs[1..], j - 1);
    }
  }

  lemma {:induction false} OtherJobs(env: Env, known: set<Uuid>, n: nat, jobs: seq<Job>, target: Uuid)
    requires forall j :: 0 <= j < |jobs| ==> jobs[j].id != target
    ensures Filter(r => ForJob(target, r), JobRows(env, known, n, jobs)) == []
    decreases |jobs|
  {
    hide AuditRow, Entries, EntryRows;
    if jobs != [] {
      var head := EntryRows(env, known, n, jobs[0].id, Entries(jobs[0]));
      FilterAppend(r => ForJob(target, r), head, JobRows(env, known, n + |Entries(jobs[0])|, jobs[1..]));
      EntryRowsFor(env, known, n, jobs[0].id, Entries(jobs[0]), target);
      OtherJobs(env, known, n + |Entries(jobs[0])|, jobs[1..], target);
    }
  }

  // ---------------------------------------------------------------- what the audit rows say

  /** The items of a job's history column. */
  function Items(job: Job): seq<Json> {
    if job.statusHistory.Some? && job.statusHistory.value.Arr? then job.statusHistory.value.items else []
  }

  /** How many of the items are well-formed entries. */
  function Objects(items: seq<Json>): nat { |Filter((item: Json) => item.Obj?, items)| }

  /** How many rows the jobs give. */
  function RowCount(jobs: seq<Job>): nat { if jobs == [] then 0 else Objects(Items(jobs[0])) + RowCount(jobs[1..]) }

  predicate Has(entry: map<string, Json>, key: string) { key in entry && entry[key] != Null }

  function OrNull(entry: map<string, Json>, key: string): Json { if key in entry then entry[key] else Null }

  /** Who: the id of a known user, else the text as a label, else nobody. */
  ghost predicate TellsWho(env: Env, users: seq<Uuid>, row: AuditLog, entry: map<string, Json>) {
    var text := if Has(entry, "by") then Strip(env.str(entry["by"])) else "";
    var user := if text != "" then env.parseUuid(text) else None;
    if user.Some? && user.value in users then row.actorId == user && row.actorLabel == None
    else row.actorId == None && row.actorLabel == if text != "" then Some(text) else None
  }

  /** When: the entry's own time, with a final Z read as +00:00, else the time of the insert. */
  ghost predicate TellsWhen(env: Env, row: AuditLog, entry: map<string, Json>) {
    var given := Has(entry, "at") && entry["at"].Str? && entry["at"].s != "";
    var text := if given then Some(Strip(entry["at"].s)) else None;
    var iso := if text.None? then None
      else if text.value != "" && text.value[|text.value| - 1] == 'Z' then
        env.parseIso(text.value[..|text.value| - 1] + "+00:00")
      else env.parseIso(text.value);
    row.createdAt == if iso.Some? then iso.value else env.now
  }

  /** What: the old status if the entry names one, the new status, the reason if there is one, and the marker. */
  ghost predicate TellsWhat(row: AuditLog, entry: map<string, Json>) {
    && (row.before.None? <==> !Has(entry, "from"))
    && (row.before.Some? ==> row.before.value == Obj(map["status" := entry["from"]]))
    && row.after.Some? && row.after.value.Obj?
    && var after := row.after.value.fields;
       && after.Keys == {"status", "_migration"} + (if Has(entry, "reason") then {"reason"} else {})
       && after["status"] == OrNull(entry, "to") && after["_migration"] == Str("005_legacy_profiles_jobs")
       && (Has(entry, "reason") ==> after["reason"] == entry["reason"])
  }

  ghost predicate Tells(env: Env, users: seq<Uuid>, row: AuditLog, job: Uuid, entry: map<string, Json>) {
    && row.action == "job.status_changed" && row.targetType == "job" && row.targetId == job
    && TellsWho(env, users, row, entry) && TellsWhen(env, row, entry) && TellsWhat(row, entry)
  }

  lemma AuditRowTells(env: Env, users: seq<Uuid>, id: Uuid, job: Uuid, entry: map<string, Json>)
    ensures Tells(env, users, AuditRow(env, Users(users), id, job, entry), job, entry)
  {
    hide Strip;
    assert AUDIT_MARKER == "_migration" && REVISION == "005_legacy_profiles_jobs";
    KeysDiffer();
  }

  lemma KeysDiffer()
    ensures "status" != "_migration" && "reason" != "_migration" && "reason" != "status"
  {
    assert "status"[0] == 's' && "_migration"[0] == '_' && "reason"[0] == 'r';
  }

  lemma {:induction false} ObjectsAre(items: seq<Json>, n: nat)
    requires n < |items| && items[n].Obj?
    ensures Objects(items[..n]) < |ObjectsOf(items)| == Objects(items)
    ensures ObjectsOf(items)[Objects(items[..n])] == items[n].fields
  {
    ObjectsCount(items);
    var rest := items[1..];
    assert items == [items[0]] + rest;
    if n == 0 {
      assert items[..0] == [];
    } else {
      ObjectsAre(rest, n - 1);
      assert items[..n] == [items[0]] + rest[..n - 1];
      FilterAppend((item: Json) => item.Obj?, [items[0]], rest[..n - 1]);
      FilterAppend((item: Json) => item.Obj?, [items[0]], rest);
    }
  }

  lemma {:induction false} ObjectsCount(items: seq<Json>)
    ensures |ObjectsOf(items)| == Objects(items)
  {
    if items != [] {
      ObjectsCount(items[1..]);
    }
  }

  lemma EntriesAre(job: Job)
    ensures Entries(job) == ObjectsOf(Items(job)) && |Entries(job)| == Objects(Items(job))
  {
    hide Objects;
    ObjectsCount(Items(job));
  }

  lemma {:induction false} JobRowsTell(env: Env, users: seq<Uuid>, first: nat, jobs: seq<Job>, j: nat, n: nat)
    requires j < |jobs| && n < |Items(jobs[j])| && Items(jobs[j])[n].Obj?
    ensures var rows, k := JobRows(env, Users(users), first, jobs), RowCount(jobs[..j]) + Objects(Items(jobs[j])[..n]);
      k < |rows| && Tells(env, users, rows[k], jobs[j].id, Items(jobs[j])[n].fields)
    decreases |jobs|
  {
    hide AuditRow, Tells, Objects, Users, ObjectsOf, Entries, Items, RowCount;
    var m := |Entries(jobs[0])|;
    EntriesAre(jobs[0]);
    if j == 0 {
      ObjectsAre(Items(jobs[0]), n);
      var i := Objects(Items(jobs[0])[..n]);
      AuditRowTells(env, users, env.ids(first + i), jobs[0].id, Entries(jobs[0])[i]);
      NoRows(jobs);
    } else {
      JobRowsTell(env, users, first + m, jobs[1..], j - 1, n);
      RowCountFirst(jobs, j);
    }
  }

  lemma NoRows(jobs: seq<Job>)
    ensures RowCount(jobs[..0]) == 0
  {
  }

  lemma RowCountFirst(jobs: seq<Job>, j: nat)
    requires 0 < j <= |jobs|
    ensures RowCount(jobs[..j]) == Objects(Items(jobs[0])) + RowCount(jobs[1..][..j - 1])
  {
    hide Objects, Items;
    assert jobs[..j][1..] == jobs[1..][..j - 1];
  }

  lemma {:induction false} JobRowsCount(env: Env, known: set<Uuid>, first: nat, jobs: seq<Job>)
    ensures |JobRows(env, known, first, jobs)| == RowCount(jobs)
    decreases |jobs|
  {
    hide AuditRow, Objects, ObjectsOf, Entries, Items;
    if jobs != [] {
      EntriesAre(jobs[0]);
      JobRowsCount(env, known, first + |Entries(jobs[0])|, jobs[1..]);
    }
  }

  /**
   * Every well-formed entry of every history has its own row, in order, which tells what the entry tells; there are
   * no other new rows.
   */
  lemma BackfillTells(env: Env, t: Tables)
    ensures t.auditLogs <= Up(env, t).auditLogs && |Up(env, t).auditLogs| == |t.auditLogs| + RowCount(t.jobs)
    ensures forall j, n :: 0 <= j < |t.jobs| && 0 <= n < |Items(t.jobs[j])| && Items(t.jobs[j])[n].Obj? ==>
      RowOf(env, t, j, n)
  {
    hide JobRows, NewCompanies, NewMemberships, RowOf, RowCount, LegacyProfiles, Users;
    JobRowsCount(env, Users(t.users), 2 * |LegacyProfiles(t.profiles)|, t.jobs);
    forall j, n | 0 <= j < |t.jobs| && 0 <= n < |Items(t.jobs[j])| && Items(t.jobs[j])[n].Obj?
      ensures RowOf(env, t, j, n)
    {
      OneRowTells(env, t, j, n);
    }
  }

  /** The row for entry `n` of job `j` stands where the entries before it put it. */
  ghost predicate RowOf(env: Env, t: Tables, j: nat, n: nat)
    requires j < |t.jobs| && n < |Items(t.jobs[j])| && Items(t.jobs[j])[n].Obj?
  {
    var k := |t.auditLogs| + RowCount(t.jobs[..j]) + Objects(Items(t.jobs[j])[..n]);
    && k < |Up(env, t).auditLogs|
    && Tells(env, t.users, Up(env, t).auditLogs[k], t.jobs[j].id, Items(t.jobs[j])[n].fields)
  }

  lemma OneRowTells(env: Env, t: Tables, j: nat, n: nat)
    requires j < |t.jobs| && n < |Items(t.jobs[j])| && Items(t.jobs[j])[n].Obj?
    ensures RowOf(env, t, j, n)
  {
    hide JobRows, NewCompanies, NewMemberships, Tells, Objects, RowCount, LegacyProfiles, Users, Items;
    JobRowsTell(env, t.users, 2 * |LegacyProfiles(t.profiles)|, t.jobs, j, n);
  }

  // ---------------------------------------------------------------- reversibility

  /** uuid4 never repeats an id, and no row refers to a company that does not exist yet. */
  ghost predicate FreshIds(env: Env, t: Tables) {
    && (forall n: nat :: forall i :: 0 <= i < |t.companies| ==> t.companies[i].id != env.ids(n))
    && (forall n: nat :: forall i :: 0 <= i < |t.memberships| ==> t.memberships[i].companyId != env.ids(n))
  }

  predicate Unmarked(t: Tables) {
    && (forall i :: 0 <= i < |t.companies| ==> !Migrated(t.companies[i]))
    && (forall i :: 0 <= i < |t.auditLogs| ==> !Backfilled(t.auditLogs[i]))
  }

  /** The added companies, as far as the downgrade looks at them. */
  lemma AddedCompanies(env: Env, t: Tables)
    ensures var legacy := LegacyProfiles(t.profiles);
      var added := NewCompanies(env, legacy, TakenSlugs(t.companies), 0);
      |added| == |legacy| && forall i :: 0 <= i < |legacy| ==> Migrated(added[i]) && added[i].id == env.ids(2 * i)
  {
    hide NewCompanies, Migrated, NewCompany, LegacyProfiles;
    var legacy := LegacyProfiles(t.profiles);
    var added := NewCompanies(env, legacy, TakenSlugs(t.companies), 0);
    NewCompaniesShape(env, legacy, TakenSlugs(t.companies), 0);
    forall i | 0 <= i < |legacy| ensures Migrated(added[i]) && added[i].id == env.ids(2 * i) {
      CompanyHasSlug(env, env.ids(2 * (0 + i)), legacy[i], added[i].slug);
    }
  }

  lemma MigratedIdsAppend(a: seq<Company>, b: seq<Company>)
    ensures MigratedIds(a + b) == MigratedIds(a) + MigratedIds(b)
  {
    hide Migrated;
    forall id | id in MigratedIds(a) + MigratedIds(b) ensures id in MigratedIds(a + b) {
      if id in MigratedIds(a) {
        var i :| 0 <= i < |a| && Migrated(a[i]) && a[i].id == id;
        assert (a + b)[i] == a[i];
      } else {
        var i :| 0 <= i < |b| && Migrated(b[i]) && b[i].id == id;
        assert (a + b)[|a| + i] == b[i];
      }
    }
  }

  /**
   * What the downgrade deletes: the audit rows with the migration's marker, and the companies whose id a company with
   * a profile tag has, with all their memberships. Everything else stays, in order.
   */
  lemma DowngradeDeletes(t: Tables)
    ensures Down(t).users == t.users && Down(t).profiles == t.profiles && Down(t).jobs == t.jobs
    ensures Down(t).companies == Filter((c: Company) => !Tagged(t.companies, c.id), t.companies)
    ensures Down(t).memberships == Filter((m: Membership) => !Tagged(t.companies, m.companyId), t.memberships)
    ensures Down(t).auditLogs == Filter((a: AuditLog) => !HasMarker(a.after, "_migration",
      Str("005_legacy_profiles_jobs")), t.auditLogs)
  {
    var ids := MigratedIds(t.companies);
    FilterSame((c: Company) => c.id !in ids, (c: Company) => !Tagged(t.companies, c.id), t.companies);
    FilterSame((m: Membership) => m.companyId !in ids, (m: Membership) => !Tagged(t.companies, m.companyId),
      t.memberships);
    FilterSame(a => !Backfilled(a), (a: AuditLog) => !HasMarker(a.after, "_migration", Str("005_legacy_profiles_jobs")),
      t.auditLogs);
  }

  predicate Tagged(companies: seq<Company>, id: Uuid) {
    exists i :: 0 <= i < |companies| && companies[i].id == id && companies[i].externalRefs.Obj?
      && "migrated_from_profile" in companies[i].externalRefs.fields
      && companies[i].externalRefs.fields["migrated_from_profile"] != Null
  }

  predicate HasMarker(json: Option<Json>, key: string, value: Json) {
    json.Some? && json.value.Obj? && key in json.value.fields && json.value.fields[key] == value
  }

  /** Downgrading undoes upgrading exactly on the databases that held none of the migration's markers. */
  lemma DowngradeUndoesUpgrade(env: Env, t: Tables)
    requires FreshIds(env, t)
    ensures Down(Up(env, t)) == t <==> Unmarked(t)
  {
    hide NewCompanies, JobRows, Migrated, Backfilled, Filter, MigratedIds, NewMemberships, LegacyProfiles;
    var u, legacy := Up(env, t), LegacyProfiles(t.profiles);
    var newCompanies, newMemberships := NewCompanies(env, legacy, TakenSlugs(t.companies), 0),
        NewMemberships(env, legacy);
    var ids := MigratedIds(u.companies);
    AddedCompanies(env, t);
    MigratedIdsAppend(t.companies, newCompanies);
    MembershipCompanies(env, legacy);
    IdsOf(t.companies);
    IdsOf(newCompanies);
    var newRows := JobRows(env, Users(t.users), 2 * |legacy|, t.jobs);
    FilterAppend((c: Company) => c.id !in ids, t.companies, newCompanies);
    FilterNone((c: Company) => c.id !in ids, newCompanies);
    FilterAll((c: Company) => c.id !in ids, t.companies);
    FilterAppend((m: Membership) => m.companyId !in ids, t.memberships, newMemberships);
    FilterNone((m: Membership) => m.companyId !in ids, newMemberships);
    FilterAll((m: Membership) => m.companyId !in ids, t.memberships);
    JobRowsMarked(env, Users(t.users), 2 * |legacy|, t.jobs);
    FilterAppend(a => !Backfilled(a), t.auditLogs, newRows);
    FilterNone(a => !Backfilled(a), newRows);
    FilterAll(a => !Backfilled(a), t.auditLogs);
  }

  lemma IdsOf(companies: seq<Company>)
    ensures forall i :: 0 <= i < |companies| && Migrated(companies[i]) ==> companies[i].id in MigratedIds(companies)
    ensures forall id :: id in MigratedIds(companies) ==>
      exists i :: 0 <= i < |companies| && Migrated(companies[i]) && companies[i].id == id
  {
    hide Migrated;
  }

  lemma MembershipCompanies(env: Env, profiles: seq<Profile>)
    ensures |NewMemberships(env, profiles)| == |profiles|
    ensures forall i :: 0 <= i < |profiles| ==> NewMemberships(env, profiles)[i].companyId == env.ids(2 * i)
  {
  }
}
