# A verified model of the job board's backend

This project models the eight places of the backend where a hand-written algorithm or protocol has to
agree with something simpler, and proves that it does. `dafny verify dfyconfig.toml` checks all of it.

| part | files |
|---|---|
| shared sequences, decimals, Latin-1 bytes; strip, split and runs of characters | `Text`, `Latin1`, `CharRuns`, `LineText` |
| the fallback PDF writer and an independent reader | `PdfWriter`, `PdfReader`, `PdfText`, `PdfFile`, `PdfRoundTrip`, `PdfSize` |
| HTML escape, tag strip, unescape; a resume from its fields to the printed lines | `Html`, `Resume`, `ResumeText`, `ResumePlain`, `ResumeMarkup`, `TextLines`, `ResumePdf` |
| job search: SQL predicates against the Python filter, paging | `Like`, `Paging`, `JobSearch` |
| slugs and the reversible migration | `Slugs`, `Migration` |
| payment intents, featured dates, duplicate callbacks | `Payments`, `PaymentRuns`, `Deliveries`, `Callbacks`, `Charges` |
| state over time windows | `ReplayCache`, `Windows`, `RateLimit`, `Lockout` |
| outbound deliveries | `Delivery` |
| verification, badges, audit | `Trust` |
| batch importer, email template | `Import`, `EmailTemplate` |

What the source does step by step is a method or a class with the source's fields, proved against a function
of the old state; what the source promises is proved about that function, and its effect is stated once more field by
field, with the source's own constants, without it. Clocks, database answers, network
outcomes, fresh ids and library functions are parameters and arbitrary unless a lemma restricts them. A
handler reads its clock once, and each locked call or handler is one step. Times are whole ticks.

The PDF reader follows ISO 32000-1 and takes no offset, length, number or text from the writer, but it is no general
reader: it recognises the dictionaries of these files by their text. It looks for the header (section 7.5.2), starts at
`startxref` (7.5.5), parses the
cross-reference table (7.5.4), follows Root, Pages, Kids and Contents, cuts streams by `/Length` (7.3.8),
decodes literal strings (7.3.4.2) and runs the text operators. SQL comparisons use three-valued logic, and LIKE
follows section 8.5 of ISO/IEC 9075-2.

## Where the code does less than a reader would expect

Each of these is stated as a lemma, with the exact condition where there is one.

* `_substitute` rescans what it has put in, so the docstring's claim that brace values cannot re-introduce
  markers is false: a job title `{company}` is replaced by the company (`EmailTemplate.MarkerAsTitle`). With the
  other two values free of braces the letter is right if and only if the job title holds neither of the other two
  markers (`EmailTemplate.TitleExactly`); likewise for the company and the candidate's marker
  (`EmailTemplate.CompanyExactly`).
* Closed payment intents are not final: a callback can reopen one, a failure can overwrite a completed one, and a
  late payment for a cancelled intent can move the featured date back
  (`PaymentRuns.ReopenedExactly`, `UncompletedExactly`, `MovedBackExactly`, `LatePaymentMovesBack`).
* What the replay caches remember can decide how a run ends: with a failure report between two copies of a completion
  a job is charged once or twice, and a copy of a "pending" callback can reopen a cancelled intent
  (`Callbacks.FailureInBetween`, `CopyReopens`). It never matters if and only if every copy finds its intent already
  as the message says (`Callbacks.ReplayCachesExactly`), as when only completions by id are repeated
  (`ReplayCacheCannotMatter`). A copy that comes in time and is not pushed out is always dropped (`CopyDropped`).
* A replay-cache hit keeps the old time, so an expired key can still be reported (`ReplayCache.ExpiredKeyReported`):
  exactly when a younger key that was touched earlier still stands before it (`ReportedExactly`). Before the first hit
  expiry is exact (`ExactWithoutHits`).
* `create_company` does not reconcile badges, so a seeded domain shows no badge until the first later change
  (`Trust.CompanyRuns`).
* A row without a country or creation time passes the Python filter and fails the SQL one (`JobSearch.RowAgreement`).
* Each page of a job listing is a query of its own, ordered by creation time alone, so a row can come twice and
  another not at all (`JobSearch.TiedRowTwice`). Every row comes exactly once, whatever the database does with ties, if
  and only if no page ends between rows of one creation time (`JobSearch.ListedExactlyOnce`).
* A file whose last object starts at 10^10 bytes or later has a cross-reference row that is too long, and the reader
  rejects it (`PdfRoundTrip.ReadBack`, `FitsWhen`): every text from 10^10 + 4180 characters on has such a file
  (`PdfSize.LongText`, `OverlongFile`), and no text below a stated size does (`ShortText`).
* Characters outside Latin-1, the bullets and dashes of the templates among them, print as question marks
  (`Latin1.DecodeEncode`, `PdfRoundTrip.LineReadsBack`).
* The fixed-window counter admits up to `2 * limit - 1` hits in a window, and that bound is met for every limit and
  every window of at least two ticks (`RateLimit.FixedWindowBound`, `FixedWindowBoundMet`). It keeps all windows within
  the limit if and only if the limit or the window is one (`RateLimit.NeverMoreExactly`).

## Model

| member | source | states |
|---|---|---|
| PdfWriter.Wrap | backend/app/services/resume_templates.py:350-358 | the loop yields the chunks of the line, or one empty line |
| PdfWriter.WrappedMeaning | backend/app/services/resume_templates.py:350-358 | chunks join to the line, none is longer than the width, all but the last fill it |
| PdfText.PdfEscapeCons | backend/app/services/resume_templates.py:346-347 | three sequential replacements escape every special character exactly once |
| PdfWriter.ContentStream | backend/app/services/resume_templates.py:361-368 | the command list joined by line feeds is the encoded stream text |
| PdfText.ReadEscaped | backend/app/services/resume_templates.py:346-347 | a reader decodes an escaped literal string to the line's bytes, with CR and CR LF read as LF |
| PdfText.ReadStreamText | backend/app/services/resume_templates.py:361-368 | running a page's stream shows every line, in order, line i at x 72 and y 720 - 15i |
| PdfWriter.AssemblePdf | backend/app/services/resume_templates.py:371-389 | the byte loop yields the file layout for numbers 1..max and fails exactly on an empty or gapped numbering |
| PdfFile.FileStarts | backend/app/services/resume_templates.py:372 | the file starts with its version and a comment of four bytes above 127 |
| PdfFile.ObjectAt | backend/app/services/resume_templates.py:374-379 | object k stands at its recorded offset, and offsets increase |
| PdfFile.XrefRowLength | backend/app/services/resume_templates.py:384 | a row is 20 bytes if and only if its offset is below 10^10 |
| PdfFile.ReadRow | backend/app/services/resume_templates.py:384 | a row parses back to its offset, and is rejected exactly when the offset overflows the field |
| PdfFile.ReadXrefIs | backend/app/services/resume_templates.py:380-388 | from startxref the reader gets the whole table with true offsets, or nothing if one does not fit |
| PdfFile.FindObjectIs | backend/app/services/resume_templates.py:374-384 | looking object k up in the table that was read leads to the body of object k |
| PdfWriter.BuildObjects | backend/app/services/resume_templates.py:400-421 | objects are numbered exactly 1..2p+3, pages even, streams odd, each with the right body |
| PdfRoundTrip.ReadStreamObjectIs | backend/app/services/resume_templates.py:416-418 | the written Length cuts out exactly the stream |
| PdfRoundTrip.ReadPageTree | backend/app/services/resume_templates.py:420-421 | the Kids read back as the page objects in order, and Count is their number |
| PdfRoundTrip.ReadBack | backend/app/services/resume_templates.py:371-422 | reading the file gives every page back if all offsets fit, and nothing otherwise |
| PdfRoundTrip.FitsWhen | backend/app/services/resume_templates.py:384 | the last object's offset decides, and any file below 10^10 bytes fits |
| PdfSize.LastOffset | backend/app/services/resume_templates.py:371-421 | the last object, whose offset decides, starts no earlier than the text of all pages but its own, and at most a stated number of bytes later |
| PdfSize.LongText | backend/app/services/resume_templates.py:384-422 | any text of 10^10 + 4180 characters or more makes a file the reader rejects |
| PdfSize.ShortText | backend/app/services/resume_templates.py:384-422 | any text with 400 bytes a line and 6 a character below 10^10 - 1000 makes a file whose pages all read back |
| PdfSize.OverlongFile | backend/app/services/resume_templates.py:384-422 | a concrete text, one line of 2 * 10^10 characters, whose file the reader rejects |
| PdfWriter.FallbackTextPdf | backend/app/services/resume_templates.py:392-422 | wrapping, paging and assembling yield the file of the paged lines |
| PdfRoundTrip.LineReadsBack | backend/app/services/resume_templates.py:346-368 | a printed line reads back as itself if and only if it is Latin-1 without carriage returns |
| PdfRoundTrip.WrapAllKeepsText | backend/app/services/resume_templates.py:394-396 | wrapping all lines loses no character |
| PdfRoundTrip.LinesOnSheet | backend/app/services/resume_templates.py:361-398 | 44 lines to a page, fewer only on the last, each on the sheet and below the one before |
| PdfSize.CutAfter95 | backend/app/services/resume_templates.py:350-398 | lines are cut after every 95 characters and nowhere else, and no printed line is wider |
| PdfRoundTrip.FallbackRoundTrip | backend/app/services/resume_templates.py:346-422 | from lines to file and back: the reader succeeds exactly while all offsets fit, the shown chunks are the wrapped lines, joined they are the lines' Latin-1 image |
| Latin1.DecodeEncode | backend/app/services/resume_templates.py:368 | encoding with "replace" loses nothing if and only if the text is Latin-1 |
| Html.EscapeCons | backend/app/services/resume_templates.py:68-72 | html.escape's sequential replacements escape each character once |
| Html.EscapeHasNoMarkup | backend/app/services/resume_templates.py:68-72 | escaped user text cannot open or close a tag |
| Html.UnescapeEscape | backend/app/services/resume_templates.py:333 | unescaping undoes escaping and leaves what follows alone |
| Html.RefEndIs | backend/app/services/resume_templates.py:333 | a character reference is digits, hexadecimal digits or a name, as long as it can be, and the semicolon behind it; elsewhere the ampersand stays |
| Html.SubTagsSegs | backend/app/services/resume_templates.py:318-332 | a regex pass over a well-formed document rewrites exactly the tags it is meant for |
| Html.BrIs | backend/app/services/resume_templates.py:319 | a break tag is `br` in any case, white space, and perhaps a slash |
| Html.LowerIs | backend/app/services/resume_templates.py:316-328 | matching without regard to case reads the 26 capitals as their small letters and nothing else |
| Html.RemoveSpansSegs | backend/app/services/resume_templates.py:327-328 | removing style or head drops exactly the spans between matching tags |
| Resume.StripDocument | backend/app/services/resume_templates.py:231-258 | stripping a whole document leaves its body's text, tags turned into bullets and breaks |
| Resume.UnescapePieces | backend/app/services/resume_templates.py:329-333 | unescaping the stripped body gives the user's texts verbatim |
| ResumeText.BodyCarriesFields | backend/app/services/resume_templates.py:85-228 | every non-empty field is rendered once, in reading order, and nothing else as user text |
| ResumeText.DocumentText | backend/app/services/resume_templates.py:231-333 | strip and unescape give the raw fields with only headings, separators, bullets and breaks added |
| ResumePlain.PlainTextIs | backend/app/services/resume_templates.py:85-228 | the rendered body without its markup is the plain resume, written down from the data alone: every heading, separator, bullet and line end |
| ResumeMarkup.DocumentNested | backend/app/services/resume_templates.py:85-258 | every tag of the document but meta and the doctype is closed by its own name, in reverse order, and nothing is left open |
| TextLines.HtmlToTextLines | backend/app/services/resume_templates.py:324-343 | every printed line is one line of the text, squeezed, in order; only white lines are left out, one empty line stands for a run of them |
| LineText.SplitLinesAre | backend/app/services/resume_templates.py:335 | the lines and their boundaries make up the text, CR LF is one boundary, and no line holds one |
| LineText.LineBreaksAre | backend/app/services/resume_templates.py:335 | the ten line boundaries of `splitlines`, one by one |
| Html.PythonSpacesAre | backend/app/services/resume_templates.py:335 | the 29 characters `strip` removes, one by one |
| LineText.CleanLineJoinsWords | backend/app/services/resume_templates.py:335 | a cleaned line is its words, the maximal runs without blanks and tabs, joined by one blank each and stripped |
| LineText.TidyUnchanged | backend/app/services/resume_templates.py:335 | a tidy line is left as it is |
| LineText.CleanLineSqueezed | backend/app/services/resume_templates.py:335 | character by character: all is kept but white space at the ends, and one blank of each run |
| TextLines.OneBlankPrinted | backend/app/services/resume_templates.py:324-343 | two characters of a line with only blanks between them are printed with exactly one, or none if they stood side by side |
| CharRuns.StripOnly | backend/app/services/resume_templates.py:335 | stripping leaves exactly what stands bare between the characters to strip |
| CharRuns.WordsAre | backend/app/services/resume_templates.py:335 | the words are the maximal runs outside the class, with non-empty gaps of the class between them |
| TextLines.TidyLinesShape | backend/app/services/resume_templates.py:335-343 | no leading, trailing or doubled blanks, no tabs, no line ends, no doubled or outer empty lines |
| TextLines.TidyLinesInk | backend/app/services/resume_templates.py:335-343 | every character that is not white space survives, in order |
| ResumePdf.RenderPdf | backend/app/services/resume_templates.py:425-455 | a reader gets a resume's file exactly while all its offsets fit, as in any file below 10^10 bytes, and shows the Latin-1 image of its wrapped tidy lines |
| ResumePdf.ResumeSurvives | backend/app/services/resume_templates.py:324-455 | end to end, the lines are those of the plain resume, squeezed; wrapped they hold every visible character of it in order, and the user texts in it are exactly the non-empty fields |
| Like.LikePatternLegal | backend/app/routers/jobs.py:131-133 | every backslash of the built pattern escapes a character LIKE lets it escape |
| Like.LikeIsSubstring | backend/app/routers/jobs.py:131-133 | the escaped pattern matches a text if and only if the needle is a substring of it |
| JobSearch.JobQueryPushdown | backend/app/routers/jobs.py:136-201 | the predicate list selects a row exactly when the stated conditions hold, under NULL logic; without parameters, the active rows of the market of the last ninety days |
| JobSearch.TextLikeMeans | backend/app/routers/jobs.py:168-181 | the OR of three LIKEs is a substring search over the columns that are not NULL |
| JobSearch.ApplyFilters | backend/app/routers/jobs.py:204-235 | the Python loops keep exactly the matching rows and no row comes before a newer one, a missing time counting as now |
| JobSearch.NewestIsStableSort | backend/app/routers/jobs.py:231-235 | the sort is a stable permutation by descending creation time |
| JobSearch.RowAgreement | backend/app/routers/jobs.py:136-235 | SQL keeps a row if and only if Python keeps it and its country and creation time are present |
| JobSearch.TableAgreement | backend/app/routers/jobs.py:136-235 | on complete tables both select the same rows |
| JobSearch.UnknownTypeSelectsNothing | backend/app/routers/jobs.py:397-398 | answering an unknown job type without a query is right |
| JobSearch.EmptyIsNone | backend/app/routers/jobs.py:136-235 | an empty parameter counts as none, an empty country as a missing one |
| Paging.PageIsChunk | backend/app/routers/jobs.py:405-420 | pages of one list are its consecutive chunks and join to it |
| Paging.RowOnOnePage | backend/app/routers/jobs.py:405-420 | position k of one list is on page k / size + 1 and on no other |
| Paging.OneOrder | backend/app/routers/jobs.py:404 | rows without equal keys have only one descending order |
| Paging.PagesPartitionExactly | backend/app/routers/jobs.py:400-407 | pages of separate queries hold each row exactly once, for all orders, if and only if no tie lies across a page end |
| JobSearch.ListJobs | backend/app/routers/jobs.py:392-413 | total is the count of the Python selection, items a page of an order of it that may differ from request to request; the creation times never rise within a page or from page to page, and if they are distinct it is the page the fallback gives |
| JobSearch.ListJobsFallback | backend/app/routers/public_api.py:54-62 | the fallback gives the same total and the page of the list in which no row comes before a newer one |
| JobSearch.ListedExactlyOnce | backend/app/routers/jobs.py:396-413 | reading all pages, one request each, shows each row the SQL predicates select once for all tie orders if and only if no page ends between rows of one time |
| JobSearch.TiedRowTwice | backend/app/routers/jobs.py:404-406 | two rows of one time and two requests: one row comes twice, the other never |
| Slugs.SlugifyShape | backend/alembic/versions/005_migrate_legacy_profiles_and_jobs.py:123-127 | every name gives a well-formed slug, and a slug gives itself |
| Slugs.SlugJoinsWords | backend/alembic/versions/005_migrate_legacy_profiles_and_jobs.py:123-127 | the slug is the runs of letters and digits in lower case, joined by hyphens, or "company" without any |
| Slugs.Pigeonhole | backend/alembic/versions/005_migrate_legacy_profiles_and_jobs.py:130-138 | n taken candidates need n taken names, because decimal suffixes differ |
| Slugs.UniqueSlug | backend/alembic/versions/005_migrate_legacy_profiles_and_jobs.py:130-138 | the loop ends for every finite set and takes the first free of base, base-2, base-3 and so on |
| Slugs.GenerateUniqueSlug | backend/app/services/companies.py:59-78 | the same first free name, and an error exactly when all 10001 candidates are taken |
| Slugs.SearchesAgree | backend/app/services/companies.py:59-78 | the bounded search gives up only when the other one leaves its range, in a market of more than 10000 slugs |
| Slugs.CandidateIsSlug | backend/alembic/versions/005_migrate_legacy_profiles_and_jobs.py:130-138 | a suffixed name keeps the shape of a slug |
| Migration.Database.Upgrade | backend/alembic/versions/005_migrate_legacy_profiles_and_jobs.py:175-261 | the insert loops bring the tables to the specified state |
| Migration.Database.ConvertProfiles | backend/alembic/versions/005_migrate_legacy_profiles_and_jobs.py:179-218 | one company and one membership per legacy profile, slugs taken in order |
| Migration.Database.BackfillHistories | backend/alembic/versions/005_migrate_legacy_profiles_and_jobs.py:224-261 | the loops add the specified rows, job by job |
| Migration.Database.Downgrade | backend/alembic/versions/005_migrate_legacy_profiles_and_jobs.py:264-287 | the deletes leave the specified state |
| Migration.UpgradeKeepsSlugsUnique | backend/alembic/versions/005_migrate_legacy_profiles_and_jobs.py:181-208 | (market, slug) stays unique over all companies |
| Migration.UpgradeGains | backend/alembic/versions/005_migrate_legacy_profiles_and_jobs.py:187-218 | each legacy profile gains one company tagged with its own id, under the first free slug, and one active owner membership in it; old rows stay |
| Migration.BackfillTells | backend/alembic/versions/005_migrate_legacy_profiles_and_jobs.py:224-261 | every well-formed entry has its own row, in order, and no other row is new: old and new status, reason, marker, actor, time, action and target are those the entry tells |
| Migration.AttributionKept | backend/alembic/versions/005_migrate_legacy_profiles_and_jobs.py:154-172 | two backfilled rows have the same actor if and only if their entries name the same actor; a row has an id or a label, never both, and neither only if nobody was named |
| Migration.BackfillInOrder | backend/alembic/versions/005_migrate_legacy_profiles_and_jobs.py:224-261 | a job's audit rows are its well-formed entries in history order, and no others |
| Migration.DowngradeUndoesUpgrade | backend/alembic/versions/005_migrate_legacy_profiles_and_jobs.py:175-287 | downgrade after upgrade restores the database if and only if it held none of the markers |
| Migration.DowngradeDeletes | backend/alembic/versions/005_migrate_legacy_profiles_and_jobs.py:264-287 | exactly the rows with the marker, the tagged companies and their memberships are deleted |
| ReplayCache.Cache.Contains | backend/app/webhooks/replay_cache.py:51-57 | one lookup: prune, answer, and on a hit move the key to the end with its old time |
| ReplayCache.Cache.Add | backend/app/webhooks/replay_cache.py:71-75 | one addition: the key goes to the end with the current time, then prune |
| ReplayCache.CacheGuarantees | backend/app/webhooks/replay_cache.py:32-75 | over every run: bounded size, no key reported that was not added, and young keys reported unless pushed out |
| ReplayCache.PruneExactly | backend/app/webhooks/replay_cache.py:32-38 | a key survives pruning exactly if it or an entry before it is young and the entries from there fit |
| ReplayCache.ReportedExactly | backend/app/webhooks/replay_cache.py:40-57 | in every run a key is reported exactly if it is stored and a stored key touched no later was added less than the time to live ago |
| ReplayCache.ExactWithoutHits | backend/app/webhooks/replay_cache.py:32-75 | before the first hit a key is reported if and only if it is younger than the time to live and fewer than the limit of other keys came since |
| ReplayCache.ExpiredKeyReported | backend/app/webhooks/replay_cache.py:56 | a run in which a key is reported after its time to live |
| RateLimit.InMemoryRateLimiter.Hit | backend/app/middleware/rate_limit.py:42-54 | one hit prunes, decides and records, and touches no other key |
| RateLimit.SlidingWindowExact | backend/app/middleware/rate_limit.py:42-54 | a hit is accepted exactly when fewer than limit accepted hits lie in the last window, so no window holds more |
| RateLimit.SharedCounter.Hit | backend/app/middleware/rate_limit.py:117-139 | one hit increments a live counter or starts a period, and is accepted up to the limit |
| RateLimit.FixedWindowBound | backend/app/middleware/rate_limit.py:117-139 | at most 2 * limit - 1 accepted hits lie in any half-open window |
| RateLimit.FixedWindowBoundMet | backend/app/middleware/rate_limit.py:117-139 | for every limit and every window of at least two ticks a run that puts 2 * limit - 1 hits into one window |
| RateLimit.NeverMoreExactly | backend/app/middleware/rate_limit.py:117-139 | no window ever exceeds the limit if and only if the limit is one or the window is one tick |
| Lockout.FailedLoginTracker.PruneKey | backend/app/routers/auth.py:93-102 | old failures and finished locks of the key go, nothing else changes |
| Lockout.FailedLoginTracker.RecordFailure | backend/app/routers/auth.py:111-120 | a failure is recorded; the fifth closes the account and empties its bucket, so no stored bucket holds five |
| Lockout.FailedLoginTracker.Login | backend/app/routers/auth.py:375-386 | the gate, then the outcome on the key alone |
| Lockout.RunSound | backend/app/routers/auth.py:83-125 | after every run: fewer than five entries, locks set by exactly the fifth failure in a row within a window |
| Lockout.SixTakeAWindow | backend/app/routers/auth.py:111-120 | six failed checks in a row take at least 15 minutes |
| Lockout.FiveFailuresPerWindow | backend/app/routers/auth.py:375-386 | a half-open 15-minute window without a successful login holds at most five password checks |
| Lockout.TurnedAwayExactly | backend/app/routers/auth.py:104-120 | a login is refused unchecked if and only if such a fifth failure was the last check, less than 15 minutes ago |
| Delivery.BackoffIsCappedExponential | backend/app/workers/tasks.py:37-52 | the delay is min(30 * 2^n, 21600) for every n despite the clamped exponent, and is capped from n = 10 on |
| Delivery.BackoffMonotone | backend/app/workers/tasks.py:37-52 | delays never shrink and stay between 30 seconds and 6 hours |
| Delivery.WebhookDelivery.Deliver | backend/app/workers/tasks.py:236-327 | one run of the worker: status, attempts, error cut at 1000 characters, next time and request, for each outcome; a final row stays as it is |
| Delivery.AtMostTenPosts | backend/app/workers/tasks.py:236-327 | over every run at most ten requests, only the last can succeed, delivered exactly if one did |
| Delivery.FinalStatesStay | backend/app/workers/tasks.py:258-267 | delivered and failed rows never change and send nothing |
| Delivery.RefusedState | backend/app/workers/tasks.py:240-303 | after n refusals at any times: n attempts, pending until the tenth, the next attempt asked for one backoff after the last visit |
| Delivery.TenRefusals | backend/app/workers/tasks.py:240-303 | an endpoint that always fails, visited at any times: pending nine times, failed from the tenth on and never tried again, at least 30660 seconds after the first if no visit is early and exactly then if all are on time |
| Trust.Company.ReconcileBadges | backend/app/services/trust.py:153-180 | each badge is shown exactly while its own condition holds; old ones keep their order, new ones follow by name |
| Trust.ReconciledElements | backend/app/services/trust.py:79-100 | after reconciling, the list holds exactly the derived badges |
| Trust.ReconciledUnique | backend/app/services/trust.py:153-180 | reconciling introduces no repetition |
| Trust.Company.Move | backend/app/services/verification.py:80-121 | a transition happens exactly along the table, with one audit row that names actor, both states and reason; otherwise nothing changes |
| Trust.AllowedMoves | backend/app/services/verification.py:48-65 | from which states each state can be reached |
| Trust.Company.AttachVerifiedDomain | backend/app/services/companies.py:214-242 | up to three attempts, failed ones rolled back; on success the domain is listed once and the badges are shown as they hold |
| Trust.NormalizeDomainMeans | backend/app/services/companies.py:175-182 | a domain is compared in lower case, without outer white space and leading at-signs |
| Trust.CompanyRuns | backend/app/services/verification.py:48-121 | over every run the audit replays along allowed edges, verified right after pending; badges never repeat and match the derived ones if and only if an action succeeded or none were due at creation |
| Trust.DocumentBadge | backend/app/services/trust.py:90-93 | the document badge shows exactly while the last audit row says verified |
| Trust.DomainsGrow | backend/app/services/companies.py:228-236 | attached domains are never lost or repeated |
| Payments.PaymentStore.SettleIntent | backend/app/payments/settlement.py:82-143 | an intent is completed once; its job gets the agreed date and, at the end of at most fifty charges, this one with the newest reference |
| Payments.PaymentStore.InitiatePayment | backend/app/routers/payments.py:130-174 | a new intent, thirty days from the later of now and the featured date, exactly for the owner of a payable job without an open one, which is handed out otherwise |
| Payments.PaymentStore.LatestOf | backend/app/routers/payments.py:81-109 | the newest of the matching intents, none exactly if none matches |
| Payments.PaymentStore.CancelPayment | backend/app/routers/payments.py:264-272 | an owner cancels an open intent; any other call changes nothing |
| Payments.PaymentStore.FindIntent | backend/app/webhooks/mobile_money.py:88-101 | lookup by id, else the newest with the provider reference |
| Payments.PaymentStore.FindIntentFromSession | backend/app/webhooks/stripe_webhook.py:31-57 | lookup by id, else by session, else the newest of the job |
| Payments.NewestWithRef | backend/app/webhooks/mobile_money.py:94-100 | the intent found is the newest with that reference, and none is found exactly if none has it |
| Payments.NewestOfJob | backend/app/webhooks/stripe_webhook.py:45-57 | the same for the intents of a job |
| Payments.PaymentStore.HandleCallback | backend/app/webhooks/mobile_money.py:63-229 | a remembered event changes nothing; otherwise the intent is completed and charged for exactly the four texts of a success, failed for exactly the five of a failure, set for the other four states, and any other text is refused and not remembered |
| Payments.PaymentStore.StripeWebhook | backend/app/webhooks/stripe_webhook.py:92-134 | a remembered event changes nothing; a success settles the intent, an asynchronous failure marks it with its reason, and the event is remembered |
| Payments.PaymentStore.SettleSimulated | backend/app/workers/tasks.py:137-163 | a completed outcome settles the intent unless it was completed; any other marks it failed with its reason, whatever its state |
| PaymentRuns.ReopenedExactly | backend/app/webhooks/mobile_money.py:210-217 | a closed intent stays closed throughout a run if and only if no callback of the run gives it an open status |
| PaymentRuns.UncompletedExactly | backend/app/workers/tasks.py:150-155 | a completed intent stays completed throughout a run if and only if no failure and no other status is reported for it |
| PaymentRuns.MovedBackExactly | backend/app/payments/settlement.py:101-122 | when a settlement moves the featured date back |
| PaymentRuns.LatePaymentMovesBack | backend/app/payments/settlement.py:101-122 | a run in which a paid-for date is lost |
| PaymentRuns.FeaturedRuns | backend/app/routers/payments.py:149-172 | in orderly runs at most one intent is open, it asks for exactly 30 more days, and k payments move F to at least F + 30k and at most max(F, last initiation) + 30k days |
| Deliveries.DeliversAsHandlers | backend/app/webhooks/mobile_money.py:186-228 | a delivery in a run finds the intent the two webhook handlers look up and does what they do with a message their cache does not report |
| Deliveries.RemembersAsHandlers | backend/app/webhooks/mobile_money.py:186-228 | each handler remembers a message under its own key: Stripe events always, callbacks unless an intent was found and the status text is unknown |
| Deliveries.NeverMattersExactly | backend/app/webhooks/replay_cache.py:40-75 | for any effect of a delivery and any rule of what is remembered: every prefix of a run ends the same for all answers of the caches if and only if every copy they may report finds nothing to change; Callbacks.ReplayCachesExactly is its instance for the two handlers |
| Callbacks.AlreadyDoneExactly | backend/app/webhooks/mobile_money.py:200-217 | a message changes nothing but times exactly when its intent is already as it says |
| Callbacks.ReplayCachesExactly | backend/app/webhooks/mobile_money.py:186-228 | up to times, what the two caches remember or forget never matters if and only if every repeated message finds its intent already as it says |
| Callbacks.ReplayCacheCannotMatter | backend/app/webhooks/stripe_webhook.py:92-134 | when only completions by id are repeated and nothing takes one back, the whole store ends the same whether the caches remember, forget or are off |
| Callbacks.CopyReopens | backend/app/webhooks/mobile_money.py:196-217 | a copy of a "pending" callback after a cancellation reopens the intent exactly if it was forgotten |
| Callbacks.CachesAreSound | backend/app/webhooks/replay_cache.py:40-75 | the two modelled caches, whatever their limits, report only keys of earlier deliveries to the same handler |
| Callbacks.CopyDropped | backend/app/webhooks/replay_cache.py:32-75 | a copy less than the time to live after an accepted delivery, with fewer than the limit of other events of its handler in between, is dropped in every run of the in-process cache |
| Callbacks.FailureInBetween | backend/app/webhooks/mobile_money.py:186-228 | with a failure between them two copies of a completion are charged once or twice, as the cache answers |
| Charges.HistoryIs | backend/app/payments/settlement.py:123-132 | a job's history is the last fifty of what it had and the first-time settlements in order, its date the last one's |
| Charges.ChargedOnce | backend/app/payments/settlement.py:101-135 | no intent is charged twice, and the charged ones are exactly those completed in the run |
| Import.Importer.FlushBatch | backend/scripts/migrate_mongo_to_postgres.py:324-359 | a batch or its row-by-row retry: a row counts as errored exactly if the database refuses it on the table the rows before it left |
| Import.Importer.MigrateCollection | backend/scripts/migrate_mongo_to_postgres.py:362-415 | for every batch size a document counts as errored exactly if it cannot be transformed or its row is refused, every other as migrated, and the table is that of one document at a time |
| Import.DryRunCounts | backend/scripts/migrate_mongo_to_postgres.py:334-335 | a dry run counts as migrated exactly the documents that can be transformed |
| EmailTemplate.Substitute | backend/app/services/application_email.py:87-97 | the token loop makes the replacements in order |
| EmailTemplate.TemplatesAre | backend/app/services/application_email.py:26-41 | the two templates and the three markers, word for word |
| EmailTemplate.RenderApplicationEmail | backend/app/services/application_email.py:100-115 | subject and body are the two templates with the tokens replaced in order |
| EmailTemplate.SequentialMeaning | backend/app/services/application_email.py:87-97 | for all values and any order each slot shows its value after the later replacements, and literals stay |
| EmailTemplate.SimultaneousIf | backend/app/services/application_email.py:87-97 | one simultaneous substitution as long as no value holds the marker of a later token |
| EmailTemplate.BraceFreeEmail | backend/app/services/application_email.py:26-41 | brace-free values: subject and body are the simultaneous substitution in any token order, with no marker left |
| EmailTemplate.TitleExactly | backend/app/services/application_email.py:87-115 | otherwise brace-free, it is simultaneous if and only if the job title holds neither other marker |
| EmailTemplate.CompanyExactly | backend/app/services/application_email.py:87-115 | with a brace-free title and candidate, it is simultaneous if and only if the company does not hold the candidate marker |
| EmailTemplate.MarkerAsTitle | backend/app/services/application_email.py:90-91 | a job title for which it is not |

## Left out

- HTTP, FastAPI wiring, SMTP, S3, arq, DNS, Stripe's library, signatures and timestamps of callbacks: their outcomes are inputs.
- Redis transport and its fallbacks; the lockout and the replay cache are modelled on their in-process structures, the limiter's counter on Redis keys with an expiry.
- Interleavings inside a handler: each handler is one step on the database it finds.
- Unicode: case folding and white space in the regexes and `lower` are ASCII plus Python's white space; NFKD folding and the library `slugify` are given functions.
- The table of HTML character references beyond the five that `html.escape` uses is a parameter.
- The class attributes of the resume's tags: they only choose a style, and the style sheet is a parameter.
- WinAnsi differs from Latin-1 at 0x80 to 0x9F; the reader reports bytes, not glyphs.
- JSON fields that are not strings, and `str()` of them; a resume's fields are strings, empty when missing.
- The weasyprint and xhtml2pdf branches and the artifact on disk.
- The market restriction of the fallback's first query in `/jobs`; its candidate rows are the table given to the fallback.
- An admin's change of a job's owner, account deletion and job deletion: the payment runs keep owners and jobs.
- Which of several intents made at the same moment a lookup returns: any, but the same one for the same set of intents.
- Provider adapters: whatever they do, the intent stays saved, with the reference they return as an input.
- `Payments.PaymentStore.HandleCallback`: a reply code is not modelled, only the store and the replay cache.
- `Trust`: jobs' and profiles' badges, which are only derived for display; how a domain was proven; changes of external_refs.
- `Import.Importer.MigrateCollection`: the transform functions are given; a row's own upsert is a function of table and row, so failures that come and go are not modelled.
- RBAC, memberships' accept and suspend, profile versions, kanban and market lookup: they would only add easy members.
