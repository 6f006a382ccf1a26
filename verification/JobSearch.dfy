/** The two implementations of the job search, in SQL and in Python, and the pages they are served in. */
module JobSearch {
  import opened Text
  import opened Like
  import opened LineText
  import opened Paging

  // ---------------------------------------------------------------- rows and requests

  /** A row of the jobs table; the nullable columns are options. Times are in seconds. */
  datatype Job = Job(id: nat, status: string, country: Option<string>, createdAt: Option<int>,
    title: string, company: Option<string>, location: Option<string>, jobType: string, remote: bool,
    featuredThrough: Option<int>)

  /** The query string parameters of /jobs, /jobs/count and /api/jobs. */
  datatype Request = Request(query: Option<string>, jobType: Option<string>, remote: Option<bool>)

  /** What both implementations take from their surroundings: the market, the clock, str.lower, the known job types. */
  datatype Context = Context(country: string, now: int, lower: string -> string, types: set<string>)

  const LISTING_SECONDS: int := 90 * 24 * 60 * 60

  /** Python truthiness of an optional string. */
  predicate Truthy(s: Option<string>) { s.Some? && s.value != "" }

  // ---------------------------------------------------------------- SQL

  /** SQL truth values. */
  datatype Truth = True | False | Unknown

  function Known(b: bool): Truth { if b then True else False }

  function Or(a: Truth, b: Truth): Truth {
    if a == True || b == True then True else if a == False && b == False then False else Unknown
  }

  datatype Predicate =
    | StatusIs(status: string)
    | CountryIs(country: string)
    | CreatedSince(cutoff: int)
    | TextLike(pattern: string)
    | TypeIs(jobType: string)
    | RemoteIs(remote: bool)
    | FeaturedSince(time: int)

  /** `func.lower(column).like(pattern, escape="\\")`. */
  function LowerLike(lower: string -> string, column: Option<string>, pattern: string): Truth {
    if column.None? then Unknown else Known(Matches(pattern, lower(column.value)))
  }

  function Eval(lower: string -> string, f: Predicate, job: Job): Truth {
    match f
    case StatusIs(s) => Known(job.status == s)
    case CountryIs(c) => if job.country.None? then Unknown else Known(job.country.value == c)
    case CreatedSince(t) => if job.createdAt.None? then Unknown else Known(job.createdAt.value >= t)
    case TextLike(p) =>
      Or(LowerLike(lower, Some(job.title), p), Or(LowerLike(lower, job.company, p), LowerLike(lower, job.location, p)))
    case TypeIs(t) => Known(job.jobType == t)
    case RemoteIs(b) => Known(job.remote == b)
    case FeaturedSince(t) => if job.featuredThrough.None? then Unknown else Known(job.featuredThrough.value >= t)
  }

  /** A WHERE clause keeps the rows on which every filter is true. */
  predicate Selects(lower: string -> string, filters: seq<Predicate>, job: Job) {
    forall i :: 0 <= i < |filters| ==> Eval(lower, filters[i], job) == True
  }

  /** An active job of the market, at most ninety days old. */
  predicate Live(ctx: Context, job: Job) {
    && job.status == "active" && job.country == Some(ctx.country)
    && job.createdAt.Some? && job.createdAt.value >= ctx.now - 7776000
  }

  /** `_job_query_pushdown`, on a model that has every column it asks for. */
  method JobQueryPushdown(ctx: Context, req: Request, featuredAfter: Option<int>) returns (filters: seq<Predicate>)
    ensures forall job :: Selects(ctx.lower, filters, job) <==> SqlKeeps(ctx, req, featuredAfter, job)
    ensures req == Request(None, None, None) && featuredAfter == None ==>
      forall job :: Selects(ctx.lower, filters, job) <==> Live(ctx, job)
  {
    var cutoff := ctx.now - LISTING_SECONDS;
    filters := [StatusIs("active"), CountryIs(ctx.country), CreatedSince(cutoff)];
    assert forall job :: Selects(ctx.lower, filters, job) <==>
      Eval(ctx.lower, filters[0], job) == True && Eval(ctx.lower, filters[1], job) == True
        && Eval(ctx.lower, filters[2], job) == True;
    if Truthy(req.query) && Strip(req.query.value) != "" {
      TextLikeMeans(ctx.lower, ctx.lower(Strip(req.query.value)));
      SelectsMore(ctx.lower, filters, TextLike(LikePattern(ctx.lower(Strip(req.query.value)))));
      filters := filters + [TextLike(LikePattern(ctx.lower(Strip(req.query.value))))];
    }
    if Truthy(req.jobType) {
      SelectsMore(ctx.lower, filters, TypeIs(req.jobType.value));
      filters := filters + [TypeIs(req.jobType.value)];
    }
    if req.remote.Some? {
      SelectsMore(ctx.lower, filters, RemoteIs(req.remote.value));
      filters := filters + [RemoteIs(req.remote.value)];
    }
    if featuredAfter.Some? {
      SelectsMore(ctx.lower, filters, FeaturedSince(featuredAfter.value));
      filters := filters + [FeaturedSince(featuredAfter.value)];
    }
  }

  lemma SelectsMore(lower: string -> string, filters: seq<Predicate>, f: Predicate)
    ensures forall job ::
      Selects(lower, filters + [f], job) <==> Selects(lower, filters, job) && Eval(lower, f, job) == True
  {
    hide Eval;
    forall job
      ensures Selects(lower, filters + [f], job) <==> Selects(lower, filters, job) && Eval(lower, f, job) == True
    {
      assert (filters + [f])[|filters|] == f;
      assert forall i :: 0 <= i < |filters| ==> (filters + [f])[i] == filters[i];
    }
  }

  /** The OR of three LIKEs is a substring search over the columns that are not NULL. */
  lemma TextLikeMeans(lower: string -> string, needle: string)
    ensures forall job :: Eval(lower, TextLike(LikePattern(needle)), job) == True <==>
      FoundIn(lower, needle, Some(job.title)) || FoundIn(lower, needle, job.company)
        || FoundIn(lower, needle, job.location)
  {
    hide Matches, LikePattern, Contains;
    forall text ensures Matches(LikePattern(needle), text) <==> Contains(text, needle) {
      LikeIsSubstring(needle, text);
    }
  }

  predicate FoundIn(lower: string -> string, needle: string, column: Option<string>) {
    column.Some? && Contains(lower(column.value), needle)
  }

  /** What the SQL means, without patterns or three-valued logic. */
  predicate SqlKeeps(ctx: Context, req: Request, featuredAfter: Option<int>, job: Job) {
    && job.status == "active"
    && job.country == Some(ctx.country)
    && job.createdAt.Some? && job.createdAt.value >= ctx.now - LISTING_SECONDS
    && (Truthy(req.query) && Strip(req.query.value) != "" ==>
         var needle := ctx.lower(Strip(req.query.value));
         FoundIn(ctx.lower, needle, Some(job.title)) || FoundIn(ctx.lower, needle, job.company)
         || FoundIn(ctx.lower, needle, job.location))
    && (Truthy(req.jobType) ==> job.jobType == req.jobType.value)
    && (req.remote.Some? ==> job.remote == req.remote.value)
    && (featuredAfter.Some? ==> job.featuredThrough.Some? && job.featuredThrough.value >= featuredAfter.value)
  }

  // ---------------------------------------------------------------- Python

  /** `needle in (column or "").lower()`. */
  predicate PyFound(lower: string -> string, needle: string, column: Option<string>) {
    Contains(lower(if column.None? then "" else column.value), needle)
  }

  /** The Python filter, row by row. A missing country or creation time lets a row through. */
  predicate PyKeeps(ctx: Context, req: Request, job: Job) {
    && job.status == "active"
    && !(job.createdAt.Some? && job.createdAt.value < ctx.now - LISTING_SECONDS)
    && !(Truthy(job.country) && job.country.value != ctx.country)
    && (Truthy(req.query) ==> PyText(ctx, req.query.value, job))
    && (Truthy(req.jobType) ==> job.jobType == req.jobType.value)
    && (req.remote.Some? ==> job.remote == req.remote.value)
  }

  predicate PyText(ctx: Context, query: string, job: Job) {
    var lowered := ctx.lower(Strip(query));
    PyFound(ctx.lower, lowered, Some(job.title)) || PyFound(ctx.lower, lowered, job.company)
    || PyFound(ctx.lower, lowered, job.location)
  }

  /** `list.sort(key=created_at, reverse=True)`: newest first, rows of the same time in their old order. */
  function Newest(now: int, items: seq<Job>): seq<Job> {
    if items == [] then [] else Insert(now, items[0], Newest(now, items[1..]))
  }

  function SortKey(now: int, job: Job): int { if job.createdAt.Some? then job.createdAt.value else now }

  function Insert(now: int, job: Job, sorted: seq<Job>): seq<Job> {
    if sorted == [] || SortKey(now, job) >= SortKey(now, sorted[0]) then [job] + sorted
    else [sorted[0]] + Insert(now, job, sorted[1..])
  }

  lemma {:induction false} FilterTwice(p: Job -> bool, q: Job -> bool, r: Job -> bool, items: seq<Job>)
    requires forall job :: r(job) <==> p(job) && q(job)
    ensures Filter(q, Filter(p, items)) == Filter(r, items)
  {
    if items != [] {
      FilterTwice(p, q, r, items[1..]);
      if p(items[0]) {
        assert Filter(p, items)[1..] == Filter(p, items[1..]);
      } else {
        assert Filter(p, items) == Filter(p, items[1..]);
      }
    }
  }

  /** No row is newer than one before it; a row without a creation time counts as created now. */
  predicate NewestFirst(now: int, rows: seq<Job>) {
    forall i, j :: 0 <= i < j < |rows| ==>
      match (rows[i].createdAt, rows[j].createdAt)
      case (Some(a), Some(b)) => a >= b
      case (None, Some(b)) => now >= b
      case (Some(a), None) => a >= now
      case (None, None) => true
  }

  lemma DescendingIsNewestFirst(now: int, rows: seq<Job>)
    requires Descending(KeyAt(now), rows)
    ensures NewestFirst(now, rows)
  {
    forall i, j | 0 <= i < j < |rows| ensures SortKey(now, rows[i]) >= SortKey(now, rows[j]) {
      assert KeyAt(now)(rows[i]) >= KeyAt(now)(rows[j]);
    }
  }

  /** `_apply_filters`. */
  method ApplyFilters(ctx: Context, req: Request, items: seq<Job>) returns (filtered: seq<Job>)
    ensures filtered == Newest(ctx.now, Filter(job => PyKeeps(ctx, req, job), items))
    ensures NewestFirst(ctx.now, filtered)
    ensures forall job :: job in filtered && Truthy(job.country) && job.createdAt.Some? ==> Live(ctx, job)
    ensures req == Request(None, None, None) ==> forall job :: job in items && Live(ctx, job) ==> job in filtered
  {
    hide PyText;
    var cutoff := ctx.now - LISTING_SECONDS;
    ghost var basic := (job: Job) => job.status == "active" && !(job.createdAt.Some? && job.createdAt.value < cutoff)
      && !(Truthy(job.country) && job.country.value != ctx.country);
    filtered := [];
    for i := 0 to |items|
      invariant filtered == Filter(basic, items[..i])
    {
      FilterSnoc(basic, items[..i], items[i]);
      assert items[..i + 1] == items[..i] + [items[i]];
      var item := items[i];
      if item.status != "active" {
        continue;
      }
      if item.createdAt.Some? && item.createdAt.value < cutoff {
        continue;
      }
      if Truthy(item.country) && item.country.value != ctx.country {
        continue;
      }
      filtered := filtered + [item];
    }
    assert items[..|items|] == items;
    ghost var k1 := (job: Job) => basic(job) && (Truthy(req.query) ==> PyText(ctx, req.query.value, job));
    ghost var k2 := (job: Job) => k1(job) && (Truthy(req.jobType) ==> job.jobType == req.jobType.value);
    ghost var k3 := (job: Job) => PyKeeps(ctx, req, job);
    if Truthy(req.query) {
      FilterTwice(basic, job => PyText(ctx, req.query.value, job), k1, items);
      filtered := Filter(job => PyText(ctx, req.query.value, job), filtered);
    } else {
      FilterSame(basic, k1, items);
    }
    if Truthy(req.jobType) {
      FilterTwice(k1, (job: Job) => job.jobType == req.jobType.value, k2, items);
      filtered := Filter((job: Job) => job.jobType == req.jobType.value, filtered);
    } else {
      FilterSame(k1, k2, items);
    }
    if req.remote.Some? {
      FilterTwice(k2, (job: Job) => job.remote == req.remote.value, k3, items);
      filtered := Filter((job: Job) => job.remote == req.remote.value, filtered);
    } else {
      FilterSame(k2, k3, items);
    }
    FilteredMeans(ctx, req, items);
    filtered := Newest(ctx.now, filtered);
  }

  lemma FilteredMeans(ctx: Context, req: Request, items: seq<Job>)
    ensures var filtered := Newest(ctx.now, Filter(job => PyKeeps(ctx, req, job), items));
      && NewestFirst(ctx.now, filtered)
      && (forall job :: job in filtered && Truthy(job.country) && job.createdAt.Some? ==> Live(ctx, job))
      && (req == Request(None, None, None) ==> forall job :: job in items && Live(ctx, job) ==> job in filtered)
  {
    hide PyKeeps, Newest, NewestFirst, Live;
    var kept := Filter(job => PyKeeps(ctx, req, job), items);
    var filtered := Newest(ctx.now, kept);
    NewestIsStableSort(ctx.now, kept);
    NewestDescends(ctx.now, filtered);
    DescendingIsNewestFirst(ctx.now, filtered);
    forall job ensures job in filtered <==> job in items && PyKeeps(ctx, req, job) {
      FilterIn(job => PyKeeps(ctx, req, job), items, job);
      assert job in multiset(filtered) <==> job in multiset(kept);
    }
    forall job
      ensures PyKeeps(ctx, req, job) && Truthy(job.country) && job.createdAt.Some? ==> Live(ctx, job)
      ensures req == Request(None, None, None) && Live(ctx, job) ==> PyKeeps(ctx, req, job)
    {
      KeptIsLive(ctx, req, job);
    }
  }

  lemma KeptIsLive(ctx: Context, req: Request, job: Job)
    ensures PyKeeps(ctx, req, job) && Truthy(job.country) && job.createdAt.Some? ==> Live(ctx, job)
    ensures req == Request(None, None, None) && Live(ctx, job) ==> PyKeeps(ctx, req, job)
  {
  }

  // ---------------------------------------------------------------- the sort

  lemma {:induction false} InsertKeeps(now: int, job: Job, sorted: seq<Job>)
    ensures multiset(Insert(now, job, sorted)) == multiset{job} + multiset(sorted)
  {
    if sorted != [] && SortKey(now, job) < SortKey(now, sorted[0]) {
      InsertKeeps(now, job, sorted[1..]);
      assert sorted == [sorted[0]] + sorted[1..];
    }
  }

  lemma {:induction false} InsertSorted(now: int, job: Job, sorted: seq<Job>)
    requires forall i :: 0 <= i < |sorted| - 1 ==> SortKey(now, sorted[i]) >= SortKey(now, sorted[i + 1])
    ensures var r := Insert(now, job, sorted);
      |r| == |sorted| + 1 && (r[0] == job || (sorted != [] && r[0] == sorted[0])) &&
      forall i :: 0 <= i < |r| - 1 ==> SortKey(now, r[i]) >= SortKey(now, r[i + 1])
  {
    if sorted != [] && SortKey(now, job) < SortKey(now, sorted[0]) {
      InsertSorted(now, job, sorted[1..]);
      var tail := Insert(now, job, sorted[1..]);
      assert Insert(now, job, sorted) == [sorted[0]] + tail;
      assert forall i :: 0 <= i < |tail| ==> Insert(now, job, sorted)[i + 1] == tail[i];
      assert sorted[1..] != [] ==> sorted[1..][0] == sorted[1];
    }
  }

  /** The rows of one creation time, in order. */
  function RowsAt(now: int, time: int, items: seq<Job>): seq<Job> {
    Filter(job => SortKey(now, job) == time, items)
  }

  lemma {:induction false} InsertStable(now: int, job: Job, sorted: seq<Job>, time: int)
    requires forall i :: 0 <= i < |sorted| - 1 ==> SortKey(now, sorted[i]) >= SortKey(now, sorted[i + 1])
    ensures RowsAt(now, time, Insert(now, job, sorted))
      == (if SortKey(now, job) == time then [job] else []) + RowsAt(now, time, sorted)
  {
    if sorted == [] || SortKey(now, job) >= SortKey(now, sorted[0]) {
      assert ([job] + sorted)[1..] == sorted;
    } else {
      InsertStable(now, job, sorted[1..], time);
      assert Insert(now, job, sorted)[1..] == Insert(now, job, sorted[1..]);
    }
  }

  /** The sort loses nothing, puts newer rows first and keeps rows of one time in table order. */
  lemma {:induction false} NewestIsStableSort(now: int, items: seq<Job>)
    ensures multiset(Newest(now, items)) == multiset(items)
    ensures |Newest(now, items)| == |items|
    ensures forall i :: 0 <= i < |items| - 1 ==>
      SortKey(now, Newest(now, items)[i]) >= SortKey(now, Newest(now, items)[i + 1])
    ensures forall time :: RowsAt(now, time, Newest(now, items)) == RowsAt(now, time, items)
  {
    if items != [] {
      var rest := Newest(now, items[1..]);
      NewestIsStableSort(now, items[1..]);
      InsertKeeps(now, items[0], rest);
      InsertSorted(now, items[0], rest);
      assert items == [items[0]] + items[1..];
      forall time ensures RowsAt(now, time, Newest(now, items)) == RowsAt(now, time, items) {
        InsertStable(now, items[0], rest, time);
      }
    }
  }

  // ---------------------------------------------------------------- agreement

  /** Lower-casing as both sides do it, and a market with a name. */
  ghost predicate ContextOk(ctx: Context) { ctx.lower("") == "" && ctx.country != "" }

  /**
   * Row by row, the SQL predicates keep what the Python filter keeps, exactly as long as the row has
   * a country and a creation time: NULL fails an SQL comparison but passes the Python one.
   */
  lemma RowAgreement(ctx: Context, req: Request, job: Job)
    requires ContextOk(ctx)
    ensures SqlKeeps(ctx, req, None, job) <==> PyKeeps(ctx, req, job) && Truthy(job.country) && job.createdAt.Some?
  {
    hide Strip;
    if Truthy(req.query) {
      var stripped := Strip(req.query.value);
      var needle := ctx.lower(stripped);
      EverywhereEmpty(ctx.lower(job.title));
      NowhereInEmpty(needle);
    }
  }

  lemma EverywhereEmpty(text: string)
    ensures Contains(text, "")
  {
    assert "" <= text[0..];
  }

  lemma NowhereInEmpty(needle: string)
    ensures Contains("", needle) <==> needle == ""
  {
    assert ""[0..] == "";
  }

  /** Rows both sides can tell apart: the columns the schema declares NOT NULL are set. */
  predicate Complete(table: seq<Job>) {
    forall i :: 0 <= i < |table| ==> Truthy(table[i].country) && table[i].createdAt.Some?
  }

  lemma TableAgreement(ctx: Context, req: Request, table: seq<Job>)
    requires ContextOk(ctx) && Complete(table)
    ensures Filter(job => SqlKeeps(ctx, req, None, job), table) == Filter(job => PyKeeps(ctx, req, job), table)
  {
    hide SqlKeeps, PyKeeps;
    forall i | 0 <= i < |table| ensures SqlKeeps(ctx, req, None, table[i]) == PyKeeps(ctx, req, table[i]) {
      RowAgreement(ctx, req, table[i]);
    }
    FilterSame(job => SqlKeeps(ctx, req, None, job), job => PyKeeps(ctx, req, job), table);
  }

  /** An empty parameter counts as none, and an empty country as a missing one. */
  lemma EmptyIsNone(ctx: Context, req: Request, job: Job)
    ensures PyKeeps(ctx, req.(jobType := Some("")), job) == PyKeeps(ctx, req.(jobType := None), job)
    ensures PyKeeps(ctx, req.(query := Some("")), job) == PyKeeps(ctx, req.(query := None), job)
    ensures PyKeeps(ctx, req, job.(country := Some(""))) == PyKeeps(ctx, req, job.(country := None))
    ensures SqlKeeps(ctx, req.(jobType := Some("")), None, job) == SqlKeeps(ctx, req.(jobType := None), None, job)
    ensures SqlKeeps(ctx, req.(query := Some("")), None, job) == SqlKeeps(ctx, req.(query := None), None, job)
  {
    hide PyFound, FoundIn, Strip;
  }

  /** A job type that is not known selects nothing, so answering it without a query is right. */
  lemma {:induction false} UnknownTypeSelectsNothing(ctx: Context, req: Request, table: seq<Job>)
    requires Truthy(req.jobType) && req.jobType.value !in ctx.types
    requires forall i :: 0 <= i < |table| ==> table[i].jobType in ctx.types
    ensures Filter(job => PyKeeps(ctx, req, job), table) == []
  {
    if table != [] {
      UnknownTypeSelectsNothing(ctx, req, table[1..]);
    }
  }

  // ---------------------------------------------------------------- listings

  datatype Listing = Listing(items: seq<Job>, total: nat)

  function KeyAt(now: int): Job -> int { job => SortKey(now, job) }

  /** Newest is one of the orders a query may return; without equal creation times it is the only one. */
  lemma NewestIsAnOrder(now: int, rows: seq<Job>, order: seq<Job>)
    requires OrderOf(KeyAt(now), rows, order)
    ensures OrderOf(KeyAt(now), rows, Newest(now, rows)) && |order| == |rows|
    ensures NoTies(KeyAt(now), rows) ==> order == Newest(now, rows)
  {
    NewestIsStableSort(now, rows);
    NewestDescends(now, Newest(now, rows));
    SameLength(order, rows);
    if NoTies(KeyAt(now), rows) {
      TiesKept(KeyAt(now), rows, Newest(now, rows));
      OneOrder(KeyAt(now), Newest(now, rows), order);
    }
  }

  lemma {:induction false} NewestDescends(now: int, rows: seq<Job>)
    requires forall i :: 0 <= i < |rows| - 1 ==> SortKey(now, rows[i]) >= SortKey(now, rows[i + 1])
    ensures Descending(KeyAt(now), rows)
  {
    if rows != [] {
      assert forall i :: 0 <= i < |rows| - 1 ==> rows[1..][i] == rows[i + 1];
      NewestDescends(now, rows[1..]);
      forall i, j | 0 <= i < j < |rows| ensures KeyAt(now)(rows[i]) >= KeyAt(now)(rows[j]) {
        if i == 0 && j > 1 {
          assert KeyAt(now)(rows[1..][0]) >= KeyAt(now)(rows[1..][j - 1]);
        } else if i > 0 {
          assert KeyAt(now)(rows[1..][i - 1]) >= KeyAt(now)(rows[1..][j - 1]);
        }
      }
    }
  }

  /**
   * `/jobs` and `/api/jobs` with the predicates pushed down. `order` is what the database makes of ORDER BY for
   * this one request; another request may get another order of the same rows.
   */
  method ListJobs(ctx: Context, req: Request, table: seq<Job>, order: seq<Job> -> seq<Job>, page: nat, size: nat)
    returns (listing: Listing)
    requires page >= 1
    requires ContextOk(ctx) && Complete(table) && forall i :: 0 <= i < |table| ==> table[i].jobType in ctx.types
    requires forall rows :: OrderOf(KeyAt(ctx.now), rows, order(rows))
    ensures var kept := Filter(job => PyKeeps(ctx, req, job), table);
      && listing.total == |kept| && listing.items == PageOf(order(kept), page, size)
      && OrderOf(KeyAt(ctx.now), kept, order(kept))
      && (NoTies(KeyAt(ctx.now), kept) ==> listing.items == PageOf(Newest(ctx.now, kept), page, size))
    ensures NewerFirst(order(Filter(job => PyKeeps(ctx, req, job), table))) && NewerFirst(listing.items)
  {
    hide PyKeeps, SqlKeeps, Selects, OrderOf, NoTies, Slice, NewerFirst;
    var filters := JobQueryPushdown(ctx, req, None);
    ghost var kept := Filter(job => PyKeeps(ctx, req, job), table);
    NewestIsAnOrder(ctx.now, kept, order(kept));
    OrderIsNewestFirst(ctx, req, table, order(kept));
    PageNewerFirst(order(kept), page, size);
    if Truthy(req.jobType) && req.jobType.value !in ctx.types {
      UnknownTypeSelectsNothing(ctx, req, table);
      EmptySlice<Job>((page - 1) * size, size);
      return Listing([], 0);
    }
    var selected := Filter(job => Selects(ctx.lower, filters, job), table);
    FilterSame(job => Selects(ctx.lower, filters, job), job => SqlKeeps(ctx, req, None, job), table);
    TableAgreement(ctx, req, table);
    listing := Listing(Slice(order(selected), (page - 1) * size, size), |selected|);
  }

  /** Every row has a creation time, and none is newer than one before it. */
  predicate NewerFirst(rows: seq<Job>) {
    && (forall i :: 0 <= i < |rows| ==> rows[i].createdAt.Some?)
    && (forall i, j :: 0 <= i < j < |rows| ==> rows[i].createdAt.value >= rows[j].createdAt.value)
  }

  lemma OrderIsNewestFirst(ctx: Context, req: Request, table: seq<Job>, rows: seq<Job>)
    requires Complete(table) && OrderOf(KeyAt(ctx.now), Filter(job => PyKeeps(ctx, req, job), table), rows)
    ensures NewerFirst(rows)
  {
    hide PyKeeps;
    var kept := Filter(job => PyKeeps(ctx, req, job), table);
    forall i | 0 <= i < |rows| ensures rows[i].createdAt.Some? {
      assert rows[i] in multiset(rows);
      assert rows[i] in kept;
      FilterIn(job => PyKeeps(ctx, req, job), table, rows[i]);
    }
    DescendingIsNewestFirst(ctx.now, rows);
  }

  /** A page of rows in order is in order. */
  lemma PageNewerFirst(rows: seq<Job>, page: nat, size: nat)
    requires page >= 1 && NewerFirst(rows)
    ensures NewerFirst(PageOf(rows, page, size))
  {
    var items, start := PageOf(rows, page, size), if (page - 1) * size <= |rows| then (page - 1) * size else 0;
    assert start + |items| <= |rows|;
    assert forall i :: 0 <= i < |items| ==> items[i] == rows[start + i];
  }

  lemma EmptySlice<T>(offset: nat, size: nat)
    ensures Slice<T>([], offset, size) == []
  {
  }

  /** The Python fallback of the same endpoints. */
  method ListJobsFallback(ctx: Context, req: Request, table: seq<Job>, page: nat, size: nat) returns (listing: Listing)
    requires page >= 1
    ensures var kept := Filter(job => PyKeeps(ctx, req, job), table);
      && listing.total == |kept| && listing.items == PageOf(Newest(ctx.now, kept), page, size)
      && NewestFirst(ctx.now, Newest(ctx.now, kept))
  {
    var items := ApplyFilters(ctx, req, table);
    NewestIsStableSort(ctx.now, Filter(job => PyKeeps(ctx, req, job), table));
    listing := Listing(Slice(items, (page - 1) * size, size), |items|);
  }

  /**
   * A client that reads every page, one request a page, sees every row the SQL predicates select exactly once for
   * all orders the database may return, if and only if no page ends between rows created at the same time.
   */
  lemma ListedExactlyOnce(ctx: Context, req: Request, table: seq<Job>, size: nat)
    requires size >= 1 && Unique(Filter(job => SqlKeeps(ctx, req, None, job), table))
    ensures var newest := Newest(ctx.now, Filter(job => SqlKeeps(ctx, req, None, job), table));
      EveryRowOnce(KeyAt(ctx.now), newest, size) <==> NoTieAcross(KeyAt(ctx.now), newest, size)
  {
    hide Newest, EveryRowOnce, NoTieAcross, SqlKeeps;
    var kept := Filter(job => SqlKeeps(ctx, req, None, job), table);
    NewestIsStableSort(ctx.now, kept);
    NewestDescends(ctx.now, Newest(ctx.now, kept));
    UniqueKept(kept, Newest(ctx.now, kept));
    PagesPartitionExactly(KeyAt(ctx.now), Newest(ctx.now, kept), size);
  }

  /** Two rows of one creation time, two requests for pages of one row: the first row comes twice, the second never. */
  lemma TiedRowTwice(now: int, a: Job, b: Job)
    requires a != b && SortKey(now, a) == SortKey(now, b)
    ensures OrderOf(KeyAt(now), [a, b], [a, b]) && OrderOf(KeyAt(now), [a, b], [b, a])
    ensures PageOf([a, b], 1, 1) == [a] == PageOf([b, a], 2, 1)
  {
    assert multiset([a, b]) == multiset([b, a]);
  }
}
