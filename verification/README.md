# Loghub's core, modelled in Dafny

Loghub receives log records over HTTP and syslog, normalizes them into a common
event schema, stores them per tenant in Postgres, lets them be searched and
counted, and fires threshold alerts over them. This project models the parts of
it whose correctness is an argument over several functions or over whole runs,
and proves what they promise.

Tables are finite sets or sequences of rows, and each SQL statement has the
meaning of its text. Savepoints and transactions are snapshots. Times are whole
nanoseconds since Go's zero time, apart from the pages' own, which are whole
milliseconds since 1970. Code that works by changing things in place is a method
or a class with its loops, proved against a specification on values; the
theorems are about the specifications. Modules whose names end in `Laws`,
`Clients`, `Forms`, `Stops`, `Order`, `Tags` or `Complaints` say what the operations come to in
terms of what is sent and stored.

| Part | Modules |
|---|---|
| Alert evaluation, its loop and its schedule | `Alerts`, `AlertRuns`, `AlertLaws`, `Alerting`, `AlertStops`, `Jobs` |
| Filters, keyset paging and cursors | `Events`, `Filtering`, `Keyset`, `Search`, `Paging`, `SearchLaws` |
| The rate limiter | `Limiter`, `LimiterRuns`, `LimiterAdvice`, `LimiterClients` |
| NDJSON intake and batched insert | `Reading`, `Batches`, `Insert`, `InsertOrder`, `Intake`, `IntakeLaws` |
| Timelines | `Counts`, `Timelines`, `TimelineLaws` |
| Parsers and the normalizer | `KeyValue`, `KeyValueLaws`, `KeyValueForms`, `Syslog`, `SyslogLaws`, `SyslogOld`, `SyslogForms`, `SyslogOverruns`, `Values`, `Builder`, `Normalize`, `NormalizeLaws`, `EventLaws`, `EventTags`, `EventComplaints`, `Vendors` |
| Filters in the URL, and the link from an alert | `UrlFilters`, `PageLaws`, `AlertLink` |
| Text, lengths of time and stock datatypes | `Texts`, `Durations`, `Wrappers` |

`dafny verify dfyconfig.toml` checks the whole project.

## Where the code falls short of its promise

- **A lone backslash at the end of structured data.** Parsing a syslog line is
  meant never to fail (backend/internal/ingest/syslog.go:23-24). In
  `structuredDataEnd` an escape moves the index two characters on, so a
  backslash that is the last character of an open value moves it past the end,
  where the check `i == len(s)` (line 117) does not see it and line 122 indexes
  out of range. `SyslogOverruns.LineOverrunsExactly` proves for every line that
  this happens if and only if the line, less its line ending, is a PRI from 0 to
  191, `1 `, five fields whose time is `-` or can be read, each with the space
  after it, and a rest of the form
  `(\[([^"\]]|"([^"\\]|\\.)*")*\])*\[([^"\]]|"([^"\\]|\\.)*")*"([^"\\]|\\.)*\\`.
  An example is `<0>1 - - - - - ["\`
  (`SyslogOverruns.OverrunExample`). On every other line the code does what
  `Syslog.ParseSyslog` says; on these, that says what it should do.
- **An action that grows when it is lowered.** A text field takes at most 2048
  bytes (backend/internal/ingest/normalize.go:44-47), which is checked as the
  field is set (lines 508-517); but the action is lowered only afterwards
  (backend/internal/ingest/sources.go:171-180), and some letters have a longer
  lower case. 1024 times U+023A, which is 2048 bytes, is stored as 3072
  (`Vendors.LongActionGrows`). `NormalizeLaws.NormalEvent` and
  `NormalizeLaws.FoldFits` prove that the action of an event fits if and only if
  the action sent is at most 2048 bytes once lowered, and that every other
  field always fits, whatever the lower case of each character, within a few
  laws that hold of Go's.
- **The link from an alert and the byte order mark.** The backend trims what Go
  calls white space, which leaves U+FEFF alone; the pages trim what JavaScript
  calls white space, which drops it. So a stored user, host, event type, action
  or tag that starts or ends with U+FEFF is asked for by another name, and the
  link then finds other events than the rule counted.
  `AlertLink.LinkIsExact` proves that for a rule grouped by src_ip, user or host
  this is the only way it can, and
  `AlertLink.MarkedUserIsMissed` gives an example.
- **A burst longer than the window less a minute** may lie in no evaluated
  window, as the design accepts (docs/adr/0010-alerting.md:35).
  `Alerting.SpanThatFits` shows that the bound is tight.

## Model

A source is a path in the repository and a range of its lines.

| member | source | states |
|---|---|---|
| `Alerts.Evaluation` | backend/internal/store/alerts.go:142-191 | The statement built by appending asks for exactly the rule's events of the window with a value in the group's column; only the four known groups are accepted. `AlertLaws` says what it comes to in minutes. |
| `Alerts.AddFilters` | backend/internal/store/alerts.go:163-185 | Appending a condition per filter selects what all the filters of the rule select together. |
| `Alerts.OrderBy` | backend/internal/store/alerts.go:186-203 | The groups come out in byte order, each once; the order is only that in which one evaluation records its firings. |
| `Alerts.AlertRepo.Evaluate` | backend/internal/store/alerts.go:117-137 | Evaluating appends the rule's firings to the alerts table and changes nothing else; a rule with an unknown group is an error and changes nothing. |
| `Alerts.AlertRepo.Execute` | backend/internal/store/alerts.go:186-203 | The grouped count with its threshold, cooldown and unique key yields exactly the firings of the specification, in the order of their keys. |
| `Alerts.FiringsAre` | backend/internal/store/alerts.go:186-203 | An evaluation records one firing for each group that reaches the threshold and is neither cooling nor recorded, each once, and no other. |
| `Alerts.EvaluatingAgainIsIdle` | backend/internal/store/alerts.go:186-203 | Evaluating the same window again straight away records nothing. |
| `AlertLaws.FiresExactly` | backend/internal/store/alerts.go:142-203 | Evaluated at an end, a rule fires for a group if and only if the group's events that match the rule in the `windowMinutes` minutes before it are as many as the threshold, at least one, and every firing the group had ended `cooldownMinutes` minutes ago or more, none for the same window; the firing names that window and their number. |
| `AlertLaws.FiringsInOrder` | backend/internal/store/alerts.go:186-203 | An evaluation's firings are of different groups, in the order of their names as text. |
| `AlertLaws.FiringsAreSpaced` | backend/internal/store/alerts.go:186-203 | Over any run, the windows of two firings of a rule and group are `windowMinutes` minutes long and their ends at least `cooldownMinutes` minutes apart. |
| `AlertLaws.WindowIsRecent` | backend/internal/alerting/alerting.go:28-33 | The window ends on a whole minute, from 30 to 90 seconds before the run. |
| `AlertLaws.BurstIsAnswered` | backend/internal/alerting/alerting.go:28-33 | Detection from the job loop to the table, in minutes: a group of enough matching events within the window less a minute has, from 150 seconds and a run after the last of them on, a firing for a window of that length or one that ended less than the cooldown before. |
| `AlertRuns.FiringsApart` | backend/internal/store/alerts.go:186-203 | In any run, in any order of windows and with repeats, two firings of one rule and group never share a window, and the later one ends at least the cooldown after the earlier. |
| `AlertRuns.CountsAre` | backend/internal/store/alerts.go:154-203 | Every firing in the table records the size of a set of events of its rule, group and window, no smaller than the threshold. |
| `AlertRuns.CountedOnce` | backend/internal/store/alerts.go:154-203 | With a cooldown no shorter than the window, no event is counted by two firings of one rule, of whatever groups. |
| `AlertRuns.MatchedBounded` | backend/internal/store/alerts.go:154-203 | The recorded counts of a rule's firings add up to no more than the events there ever were for it to count. |
| `AlertRuns.RulesAreIndependent` | backend/internal/store/alerts.go:186-203 | A rule's firings in a run are those of the run with every other rule left out. |
| `AlertRuns.OwnFiringsOnly` | backend/internal/store/alerts.go:186-203 | What an evaluation records depends on the rule's own earlier firings only. |
| `Alerting.WindowEnd` | backend/internal/alerting/alerting.go:28-33 | The last whole minute that is at least half a minute past. |
| `Alerting.Evaluator.Run` | backend/internal/alerting/alerting.go:101-126 | A run leaves the table that evaluating the rules it reaches, in order and over one window, leaves; where listing fails or the run is stopped, the rest is skipped. |
| `Alerting.Evaluator.RunTenant` | backend/internal/alerting/alerting.go:108-124 | One tenant's rules are evaluated in order, up to where the run is stopped. |
| `Alerting.Evaluator.EvaluateOne` | backend/internal/alerting/alerting.go:128-153 | What fired is what the table gained, and a rule that fails leaves it as it was. |
| `Alerting.EvaluateAllIsTable` | backend/internal/alerting/alerting.go:101-153 | A run of the evaluator is a run of evaluations, so all that holds over runs of those holds over its runs. |
| `Alerting.OthersAreEvaluated` | backend/internal/alerting/alerting.go:101-153 | Unless the run is stopped or the tenants cannot be listed, exactly the rules that can be listed and do not themselves fail are evaluated. |
| `AlertStops.EvaluatedInTurn` | backend/internal/alerting/alerting.go:101-126 | A run evaluates the rules tenant by tenant in their order, passing over those that fail and tenants whose rules cannot be listed; stopped after n attempts, just those of the first n; stopped from the start, still the first there is to attempt, unless a listing fails before it. |
| `Alerting.HistoryIsRuns` | backend/internal/alerting/alerting.go:101-153 | The table after some ticks is what the evaluator leaves by running at each of them in turn, over the window its time gives. |
| `Alerting.Detected` | backend/internal/alerting/alerting.go:28-33 | With ticks at most a minute apart, a burst of one group that reaches the threshold and spans at most the window less a minute lies wholly in the window of some run that starts within 150 seconds of its last event, unless runs then are stopped or the rule fails; from the end of that run on, its group has a firing for that window or one whose cooldown covers it. |
| `Alerting.StartsThatLate` | backend/internal/alerting/alerting.go:28-33 | A run that just misses an event on a whole minute may be followed by one that starts a nanosecond short of 150 seconds after it, so the bound is tight. |
| `Alerting.SpanThatFits` | docs/adr/0010-alerting.md:35 | From any time on, every burst of a span is held by some window ending on a whole minute if and only if the span is at most the window less a minute. |
| `Alerting.LoopTicks` | backend/internal/jobs/jobs.go:44-55 | The job loop's runs of a minute at most, started every minute, are ticks at most a minute apart. |
| `Alerting.LoopDetects` | backend/internal/alerting/alerting.go:28-33 | Under the job loop, with runs of a minute at most, such a burst is answered in the table from 150 seconds and one run after its last event on. |
| `Jobs.Loop` | backend/internal/jobs/jobs.go:44-55 | The loop over a ticker with room for one tick starts its runs when the closed form says. |
| `Jobs.NextBounded` | backend/internal/jobs/jobs.go:16-23 | A run starts after the one before it has ended, and no later than the interval or that run's length after its start. |
| `Jobs.StartsBounded` | backend/internal/jobs/jobs.go:44-55 | So it is for every pair of consecutive starts of a loop. |
| `Jobs.OverrunFollowsAtOnce` | backend/internal/jobs/jobs.go:16-23 | A run as long as the interval or longer is followed by another straight away; every other run starts on a tick. |
| `Jobs.NoDrift` | backend/internal/jobs/jobs.go:44-55 | While no run outlasts the interval, run i starts exactly i intervals after the loop. |
| `Jobs.StartsOnceFired` | backend/internal/jobs/jobs.go:44-55 | Each run but the first starts at the earliest time, not before the end of the one before it, by which a tick has fired since that one's start, whatever overran before. |
| `Jobs.FiredForEach` | backend/internal/jobs/jobs.go:44-55 | So run i starts only once i ticks have fired. |
| `Filtering.NormalizedSet` | backend/internal/store/search.go:294-306 | Appending, sorting and compacting give the normalized list of the specification. |
| `Filtering.NormalizedAlike` | backend/internal/store/search.go:292-306 | Two lists normalize alike if and only if they hold the same values once trimmed, mapped and rid of blanks; the result is strictly ascending and holds exactly those. |
| `Texts.Canonical` | backend/internal/store/search.go:294-306 | Sorting and compacting gives one list to each set of values. |
| `Texts.CapitalsLower` | backend/internal/store/search.go:294-306 | Lowering turns the 26 capitals into their small letters and changes nothing else. |
| `Filtering.SetWindow` | backend/internal/store/search.go:278-290 | The window is the filter's own ends or else the defaults, and never empty. |
| `Filtering.Where` | backend/internal/store/search.go:347-391 | The conditions appended one at a time are those of the specification, in order. |
| `Filtering.ConditionsSelect` | backend/internal/store/search.go:347-391 | The WHERE holds of an event if and only if the query is meant to select it. |
| `Keyset.OrderBy` | backend/internal/store/search.go:317-333 | Rows sorted by (ts, id), in either direction. |
| `Keyset.PageIs` | backend/internal/store/search.go:95-114 | A page is the first of what remains in order, and its next position stands for exactly the rows not yet returned. |
| `Keyset.WalkInOrder` | backend/internal/store/search.go:95-114 | Over tables that change between pages, a walk returns rows in order, none twice, each stored when its page was read. |
| `Keyset.WalkMissesNothing` | backend/internal/store/search.go:95-114 | A walk that ends returns every row that was stored at each of its pages. |
| `Keyset.FixedTableEnds` | backend/internal/store/search.go:95-114 | Over a fixed table a walk ends, in exactly as many pages as its rows take. |
| `Keyset.FixedTableWhole` | backend/internal/store/search.go:95-114 | And its pages put together are the sorted rows. |
| `Search.Search` | backend/internal/store/search.go:95-114 | Reading one row more than the limit, cutting it and issuing a cursor answers with the page of the specification, or refuses as it does; `SearchLaws.AnsweredAsSent` says which events those are. |
| `Search.ReadPage` | backend/internal/store/search.go:95-114 | One page of what row-level security and the filter let through, with a cursor if and only if there is more. |
| `Search.PageFrom` | backend/internal/store/search.go:102-113 | The row beyond the limit is dropped, and the last row kept names where to go on. |
| `Paging.CursorAccepted` | backend/internal/store/search.go:196-206 | A cursor is accepted if and only if the order is the same, the filters are equivalent and each end of the window is the cursor's or left out; the window is then the cursor's, and a refusal names the cursor. |
| `Paging.KeysAlike` | backend/internal/store/search.go:430-443 | The key a cursor carries is the same for two filters if and only if they are equivalent. |
| `Paging.GoesOn` | backend/internal/store/search.go:196-206 | Sent back with its own parameters, a cursor resumes the same search whatever the clock says, with the window frozen. |
| `Paging.BrowseWalks` | backend/internal/store/search.go:95-114 | Following cursors through the API is the walk of the keyset over what the search finds. |
| `Paging.BrowsingIsComplete` | backend/internal/store/search.go:95-114 | Following cursors is never refused after the first page, returns only events wanted, in order and once, and if it ends has returned every one stored throughout. |
| `Paging.BrowsingFixedTable` | backend/internal/store/search.go:95-114 | Over a fixed table, following cursors gives the whole sorted, filtered list, in as many pages as it takes. |
| `SearchLaws.AnsweredAsSent` | backend/internal/store/search.go:95-114 | In the parameters sent alone: an answered search gives the first of the events seen, matched and within its window, newest first unless `asc` is sent, at most its limit or 50, with a cursor if and only if there are more; a missing end of the window is 24 hours before now or an hour after. |
| `SearchLaws.BrowsedAsSent` | backend/internal/store/search.go:95-114 | Following cursors from an answered search gives only what was asked for when it began, in that order, and if it ends all of it that was stored throughout. |
| `SearchLaws.BrowsedWhole` | backend/internal/store/search.go:95-114 | Over a table that does not change it gives all of it, in the fewest pages that hold it. |
| `SearchLaws.RefusedExactly` | backend/internal/store/search.go:173-290 | A search without a cursor is answered if and only if nothing is wrong with it, and else refused for the first of these: a limit not from 1 to 1000 (0 stands for 50), an order unknown, a severity not from 0 to 10 or the two reversed, a text that holds NUL, an address that cannot be read, a window that is empty. |
| `Limiter.Memory.Take` | backend/internal/limiter/memory.go:26-49 | One step of the map of full-again times, with the lazy sweep, and the tokens left over. |
| `Limiter.Memory.Sweep` | backend/internal/limiter/memory.go:52-62 | Keys whose bucket is full again are dropped, at most once a minute. |
| `LimiterRuns.SweptLikeKept` | backend/internal/limiter/memory.go:52-62 | At any point of a run, the swept map answers like one that is never swept. |
| `LimiterRuns.RefinesTokenBucket` | backend/internal/limiter/memory.go:17-49 | Every answer is the one a never-swept map gives, and the one plain token buckets, filling with time and capped at the burst, give. |
| `LimiterRuns.AllowedInSpan` | backend/internal/limiter/memory.go:26-49 | In any run with a clock that does not go back, the attempts allowed to a key within a span are at most the burst and one for each interval in the span, whatever other keys do and whenever sweeps happen. |
| `LimiterRuns.EntriesAreRecent` | backend/internal/limiter/memory.go:17-21 | A key left in the map had an attempt allowed less than two minutes ago. |
| `Limiter.RateLimiter.Allow` | backend/internal/limiter/limiter.go:58-81 | The decision told is the advice for what the backend said of this client's attempt; `LimiterClients` says what that comes to for each client. |
| `Limiter.RateLimiter.Decide` | backend/internal/limiter/limiter.go:58-81 | A backend that fails allows the attempt; any other answer is turned into advice step by step. |
| `LimiterAdvice.AdviceInNanoseconds` | backend/internal/limiter/limiter.go:58-81 | Though computed from the untruncated rate, the advice is exact to the nanosecond in Remaining and RetryAfter, and ResetAfter is at most burst nanoseconds long. |
| `LimiterAdvice.RemainingIsExact` | backend/internal/limiter/limiter.go:58-81 | Of the key's further attempts at the same moment, exactly the first Remaining succeed, whatever other keys do in between. |
| `LimiterAdvice.RetryAfterIsExact` | backend/internal/limiter/limiter.go:58-81 | A refused attempt's key, when it comes again, succeeds if and only if it has waited at least RetryAfter, whatever other keys do meanwhile. |
| `LimiterAdvice.RetryAfterInSeconds` | backend/internal/api/auth.go:164-168 | Rounded up to whole seconds it is never early, and less than a second late, whatever other keys do meanwhile. |
| `LimiterAdvice.ResetAfterRefills` | backend/internal/limiter/limiter.go:58-81 | After ResetAfter exactly a full burst of the key's attempts succeeds, whatever other keys do meanwhile. |
| `LimiterClients.ClientsApart` | backend/internal/limiter/limiter.go:58-66 | Two attempts with one limiter have one key if and only if they are of one client. |
| `LimiterClients.KeysMeet` | backend/internal/limiter/limiter.go:58-66 | Two limiters on one backend can give two clients one key if and only if they have one name, or one's name and a colon start the other's. |
| `LimiterClients.AllowAnswers` | backend/internal/limiter/limiter.go:58-81 | Any run of calls is answered, and leaves the backend, as calling Allow for each in turn does. |
| `LimiterClients.OthersDoNotMatter` | backend/internal/limiter/limiter.go:58-81 | Each call is answered as it would be had its client been the only one to call its limiter. |
| `LimiterClients.ClientInSpan` | backend/internal/limiter/limiter.go:58-81 | Within a span a client is allowed at most a minute's number and one for each interval in the span, whoever else calls. |
| `LimiterClients.ClientRemaining` | backend/internal/limiter/limiter.go:58-81 | Of a client's further calls at the same moment exactly the first Remaining are allowed, whoever else calls. |
| `LimiterClients.FirstAllowed` | backend/internal/limiter/limiter.go:58-81 | A client's first call is allowed, whoever called before, and leaves it the rest of the number a minute. |
| `Insert.Database.ExecBatch` | backend/internal/store/events.go:183-194 | A batch fails if and only if one of its rows would, with an error of one of them, and otherwise stores them all in order. |
| `Insert.Database.TryBatch` | backend/internal/store/events.go:153-179 | In a savepoint a failed batch leaves the rows as they were. |
| `Insert.InsertEvents` | backend/internal/store/events.go:153-179 | A chunk stores what inserting singly would and reports the rest by position; it fails only for an error that is no event's own. |
| `Insert.InsertSingly` | backend/internal/store/events.go:153-179 | So does the fallback of one savepoint an event. |
| `Insert.InsertTenant` | backend/internal/store/events.go:89-104 | Chunks of any size come to the same as the tenant's events all at once. |
| `Insert.GroupByTenant` | backend/internal/store/events.go:80-94 | Each known tenant's positions in order of arrival; events of unknown tenants are rejected. |
| `Insert.InsertAll` | backend/internal/store/events.go:96-112 | The transaction stores tenant by tenant, and any error that is no event's own undoes all of it. |
| `Insert.Insert` | backend/internal/store/events.go:69-113 | What is stored and reported for a whole request, and exactly when it fails; a failure leaves the table unchanged. |
| `Insert.SameAsSingly` | backend/internal/store/events.go:69-113 | Each tenant is stored just what inserting every event singly would store it, in order of arrival. |
| `Insert.SameRows` | backend/internal/store/events.go:69-113 | And altogether the same rows are stored, none lost and none twice. |
| `Insert.OutcomeExactly` | backend/internal/store/events.go:197-215 | An event of an unknown tenant, or refused with SQLSTATE 23503, is reported as of an unknown tenant; one refused with 54000 or any other code of class 22 or 23 as one that cannot be stored; any other error fails the request. |
| `InsertOrder.StoredByTenant` | backend/internal/store/events.go:80-104 | The rows stored are each tenant's together, in the order in which the tenants are first seen. |
| `Reading.Reader.ReadSlice` | backend/internal/api/ingest.go:265-275 | The buffered reader's contract: a line, or a full buffer, or what is left. |
| `Reading.NextLine` | backend/internal/api/ingest.go:268-276 | One line of any length is consumed, and kept whole unless it outgrows the buffer. |
| `Reading.EachRecord` | backend/internal/api/ingest.go:262-291 | For any body the calls are those of splitting on newlines, numbering every line, trimming, leaving out blanks and passing nothing for a line over the limit not counting its ending; a body that cannot be read loses the line cut short. |
| `Reading.LinesAre` | backend/internal/api/ingest.go:262-291 | The lines hold no newlines, and joined by newlines they are the body. |
| `Reading.Reporting` | backend/internal/api/ingest.go:280-287 | A line kept only in part is reported just as the whole line would be. |
| `Batches.Batch.Add` | backend/internal/api/ingest.go:192-202 | A record is queued with its number, or rejected if the caller may not write to its tenant. |
| `Batches.Batch.Reject` | backend/internal/api/ingest.go:204-208 | A rejection joins the totals, and the report while that is short of its limit. |
| `Batches.Batch.Count` | backend/internal/api/ingest.go:210-219 | The total and the count by code grow by the one rejection. |
| `Batches.Batch.Merge` | backend/internal/api/ingest.go:221-241 | After the insert the totals and the report are again those of the whole log, in which each queued record the insert refused is rejected. |
| `Batches.TruncatedMerge` | backend/internal/api/ingest.go:221-241 | The first 100 of each of two ordered lists, sorted together and cut, are the first 100 of both lists merged. |
| `Batches.RefusingRejects` | backend/internal/api/ingest.go:221-241 | The rejections after the insert are those before it and the insert's, and no others. |
| `Batches.CountsAddUp` | backend/internal/api/ingest.go:181-189 | The counts by code add up to the number of rejections. |
| `Batches.Batch.Result` | backend/internal/api/ingest.go:243-252 | Accepted and rejected add up to the records, the counts by code to the rejected, and the errors are the first 100 of all rejections in request order. |
| `Intake.Collect` | backend/internal/api/ingest.go:107-122 | Every record reported is queued or rejected, in order. |
| `Intake.Store` | backend/internal/api/ingest.go:126-161 | The insert's outcome is merged and answered; it fails, storing nothing, if and only if the insert of what is queued does. |
| `Intake.RefusingOutcomes` | backend/internal/api/ingest.go:221-241 | However rejections interleave, each record ends with the outcome it has on its own. |
| `Intake.IngestNDJSON` | backend/internal/api/ingest.go:101-161 | A whole request: each line is accepted or rejected on its own merits, the answer counts them and lists the first rejections in order, and the table gains exactly as many rows as are accepted. There is no answer if and only if the body cannot be read or the insert of what is queued fails, and then the table is unchanged. |
| `Intake.AcceptedAreStored` | backend/internal/api/ingest.go:243-252 | The rows gained are as many as the answer says were accepted. |
| `IntakeLaws.RequestAnswered` | backend/internal/api/ingest.go:101-161 | Line by line: an answered request accepts a line, refuses it or, if it is blank, passes over it, each on its own merits; it counts both, reports the first hundred refused by their line numbers, and adds to the table just the events accepted. |
| `Counts.SaturationIsHarmless` | backend/internal/store/counts.go:198-227 | A 64-bit difference that saturates never changes whether a window is too long. |
| `Counts.PickedAutomatically` | backend/internal/store/counts.go:198-227 | The shortest width of at most 200 parts is chosen, or a day if none is; the window is refused if and only if it is over 1440 days. |
| `Counts.PickedByName` | backend/internal/store/counts.go:198-227 | A named width is used; an unknown name is refused, and a window if and only if it takes over 1440 of the width. |
| `Counts.BucketsCover` | backend/internal/store/counts.go:219-227 | The buckets cover the window with none to spare, are at most one more than the parts, and start on whole multiples of the width since the Unix epoch. |
| `Timelines.CountTimeline` | backend/internal/store/counts.go:146-179 | The timeline holds, for each bucket in order, the number of events found in it, empty ones too; a filter or interval that is refused is answered with its own refusal. `TimelineLaws` says it in the names of the intervals and the filter as sent. |
| `Timelines.Fill` | backend/internal/store/counts.go:161-178 | Filling buckets from the map of counts loses no group and misses no bucket. |
| `Timelines.OneBucket` | backend/internal/store/counts.go:130-141 | Each moment of the window is in exactly one bucket, the one date_bin puts it in. |
| `Timelines.TimelineAddsUp` | backend/internal/store/counts.go:146-179 | The counts add up to the number of matching events. |
| `TimelineLaws.TimelineAsSent` | backend/internal/store/counts.go:146-179 | An answered timeline is over the window sent, or from 24 hours before now to an hour after, and its buckets, each as long as the interval's name says and on whole multiples of that since 1970, cover it tightly and count the matching events seen within each. |
| `TimelineLaws.IntervalAsSent` | backend/internal/store/counts.go:198-227 | The interval is the one named, or else the shortest of which the window takes at most 200, or a day. |
| `TimelineLaws.TimelineRefused` | backend/internal/store/counts.go:198-227 | A timeline is answered if and only if nothing is wrong with it, and else refused for the first of these: its filter, an empty window, an interval there is not, a window of over 1440 of the interval, or of a day if none is named. |
| `KeyValue.ParseKV` | backend/internal/ingest/kv.go:15-52 | The index loop reads the pairs of the specification, going strictly forward; `KeyValueForms.ReadsAsWritten` says which they are. |
| `KeyValue.KeyAt` | backend/internal/ingest/kv.go:57-70 | The index loop finds what the specification calls a key. |
| `KeyValue.KeyIs` | backend/internal/ingest/kv.go:54-70 | A key is found if and only if the text starts with a legal one and an equals sign. |
| `KeyValue.Unquote` | backend/internal/ingest/kv.go:74-88 | The value up to the closing quote, with the escapes undone, and the length read. |
| `KeyValue.TokenEnd` | backend/internal/ingest/kv.go:90-95 | The first blank from an index on. |
| `KeyValueLaws.RoundTrip` | backend/internal/ingest/kv.go:15-52 | For any pairs with legal keys and any values, parsing the printed form gives the pairs back. |
| `KeyValueLaws.Reparse` | backend/internal/ingest/kv.go:15-52 | Parsing, printing and parsing again changes no key and no value. |
| `KeyValueLaws.ParsedKeysLegal` | backend/internal/ingest/kv.go:15-52 | Every key parsed is legal. |
| `KeyValueLaws.SplitsAtPairs` | backend/internal/ingest/kv.go:15-52 | Parsing splits over two bodies joined by a blank, if the first leaves no quote open and the second starts with a pair. |
| `KeyValueForms.ReadsAsWritten` | backend/internal/ingest/kv.go:15-52 | Text written as pairs, each with its value bare or quoted, reads as it is written, whatever the blanks between: a bare value is its words joined by single spaces, and words before any pair or after a quoted value are nothing. |
| `KeyValueForms.StrayIsLost` | backend/internal/ingest/kv.go:33-45 | Words after a quoted value, or before any pair, change nothing. |
| `KeyValueForms.QuoteEnds` | backend/internal/ingest/kv.go:46-50 | A quoted value ends at its closing quote, with marked quotes and backslashes undone and every other backslash kept, and what follows at once is read on its own. |
| `KeyValueForms.OpenRead` | backend/internal/ingest/kv.go:74-88 | A quote left open takes all the rest of the text. |
| `Syslog.StructuredDataEnd` | backend/internal/ingest/syslog.go:97-123 | The loop, with its test for the end as it is written, stops where the specification ends the field or finds it not closed; it indexes out of range if and only if the scan of some element passes the end. |
| `Syslog.Parse5424` | backend/internal/ingest/syslog.go:64-92 | The loop over fields reads the header of the specification, unless the structured data it comes to indexes out of range. |
| `Syslog.ParseLine` | backend/internal/ingest/syslog.go:23-44 | A line is read as specified, unless reading it indexes out of range, and exactly when it does. |
| `SyslogLaws.DataEndsWhereRendered` | backend/internal/ingest/syslog.go:94-123 | For any elements with escaped values (section 6.3.3 of RFC 5424) structured data ends exactly where it was rendered to. |
| `SyslogLaws.RoundTrip` | backend/internal/ingest/syslog.go:25-92 | A rendered message comes back: severity, time, host, app and text, with any line ending after it, a byte order mark not counting as text. |
| `SyslogLaws.BodyIsSuffix` | backend/internal/ingest/syslog.go:23-44 | As specified, parsing is total: the body is always a suffix of the line less its line ending, and all of it if there is no PRI. |
| `SyslogForms.LineExactly` | backend/internal/ingest/syslog.go:23-152 | A line comes to a message, as specified, if and only if it has that meaning: by whether it starts with a priority, whether version 1 and a header of RFC 5424 follow it, else a header of RFC 3164, or else just text. |
| `SyslogForms.DataExactly` | backend/internal/ingest/syslog.go:94-123 | The structured data field is read if and only if it is a dash or closed elements, all of them, and a blank or nothing follows. |
| `SyslogForms.ModernExactly` | backend/internal/ingest/syslog.go:64-92 | There is a modern header if and only if there are five fields without blanks, of which the first is a dash or a time, and structured data; it reads as those say. |
| `SyslogOld.OldExactly` | backend/internal/ingest/syslog.go:125-152 | There is an older header if and only if a time stamp and a blank are followed by a host and what is said, or by a tag and what is said; it reads as those say. |
| `SyslogOld.TagExactly` | backend/internal/ingest/syslog.go:125-152 | A tag is read if and only if there is one: a name of 1 to 48 characters, perhaps a process id in brackets, a colon, and a blank or nothing. |
| `SyslogOverruns.DataOverrunsExactly` | backend/internal/ingest/syslog.go:97-123 | The field indexes out of range if and only if it is any number of closed elements and then one that a lone backslash leaves open in a quoted value. |
| `SyslogOverruns.LineOverrunsExactly` | backend/internal/ingest/syslog.go:23-44 | A line indexes out of range if and only if, less its line ending, it is a PRI from 0 to 191, the version 1, five fields with a time that is nil or can be read, and such structured data. |
| `SyslogOverruns.OverrunHasNoHeader` | backend/internal/ingest/syslog.go:64-123 | Such a line has no header of the modern kind to be read. |
| `SyslogOverruns.OverrunExample` | backend/internal/ingest/syslog.go:23-44 | One such line in full, and that all of it after the PRI should be its body. |
| `SyslogLaws.PRIReads` | backend/internal/ingest/syslog.go:47-60 | Every PRI from 0 to 191 (section 6.2.1 of RFC 5424) reads back. |
| `Values.CleanTextFixes` | backend/internal/ingest/normalize.go:454-460 | Cleaning changes exactly the text that is not clean: trimmed and free of NUL. |
| `Values.FewestBytes` | backend/internal/ingest/normalize.go:508-517 | The bytes a text takes are counted as UTF-8 does: each character takes as few as have room for it. |
| `Values.UsableFits` | backend/internal/ingest/normalize.go:462-543 | A value a setter accepts is one the field can hold: clean and at most 2048 bytes, within the field's range, or an address. |
| `Values.FirstUsableIs` | backend/internal/ingest/normalize.go:462-464 | The value specified for a field is that of the first step that offers a usable one, and there is none if no step does. |
| `Values.AssembledAre` | backend/internal/ingest/normalize.go:389-406 | The tags assembled are the clean forms of those given that can be stored, each once. |
| `Values.AssembledInOrder` | backend/internal/ingest/normalize.go:389-406 | What earlier tags come to is not moved by later ones. |
| `Builder.EventBuilder.Set` | backend/internal/ingest/normalize.go:465-543 | A setter leaves a field that is set alone, sets it from a usable value, and reports false exactly for an unusable value of an empty field. |
| `Builder.EventBuilder.Take` | backend/internal/ingest/normalize.go:222-226 | Keeps the event that of the first usable values offered, and adds the tag if the value has no text form or cannot be used. |
| `Builder.EventBuilder.FromJson` | backend/internal/ingest/normalize.go:202-262 | The JSON path offers the record's keys in their order, then the cloud object's. |
| `Builder.EventBuilder.FromSyslog` | backend/internal/ingest/normalize.go:286-329 | The syslog path offers the pairs, then the header's host, the peer address, the app and the severity, and settles the source; `EventLaws.LineEvent` says what that makes of each field. |
| `Builder.EventBuilder.Enrich` | backend/internal/ingest/sources.go:18-91 | A source offers what it implies only after the record, deciding on the event type as it then is. |
| `Builder.EventBuilder.Decide` | backend/internal/ingest/sources.go:144-159 | The first status that says how a login went decides it, for logins only. |
| `Builder.EventBuilder.AssembleTags` | backend/internal/ingest/normalize.go:389-406 | The sender's tags and then the derived ones, with one complaint if any sent is too long. |
| `Normalize.Normalize` | backend/internal/ingest/normalize.go:82-137 | For any record: which rejection it gets, or that the event is that of the first usable values in the order of key, alias, header and enrichment, with its action folded, its payload kept and its tags in order. |
| `Normalize.Timestamp` | backend/internal/ingest/normalize.go:361-387 | The time is the last of those named that can be read, or now if that is out of reach. |
| `Normalize.NormalizeAction` | backend/internal/ingest/sources.go:169-180 | The action is lowered and folded, and no other field changes. |
| `NormalizeLaws.FirstKeyWins` | backend/internal/ingest/normalize.go:202-227 | Of a field's keys the first in the table with a usable value gives it. |
| `Vendors.ExplicitAddressWins` | backend/internal/ingest/normalize.go:202-211 | A usable src_ip wins over its alias ip, whatever that holds. |
| `NormalizeLaws.OrderDoesNotMatter` | backend/internal/ingest/normalize.go:236-251 | Keys of different fields give the same fields in whatever order they are visited. |
| `Vendors.CloudOrderDoesNotMatter` | backend/internal/ingest/normalize.go:229-251 | So the order in which the cloud object is visited does not show in the fields. |
| `Builder.EventBuilder.ReadRaw` | backend/internal/ingest/normalize.go:253-262 | The payload kept is the record's own raw if that is an object, and else the whole record less the collector's keys; any other raw is complained of. |
| `Builder.EventBuilder.Stripped` | backend/internal/ingest/normalize.go:345-359 | The whole record, less the collector's keys. |
| `NormalizeLaws.SenderWins` | backend/internal/ingest/sources.go:18-19 | What the record itself says is never changed by what its source implies; nor is its action, but for folding. |
| `NormalizeLaws.NormalEvent` | backend/internal/ingest/normalize.go:82-137 | Every field of an event but the action holds a value that fits it; the action, folded, does if and only if what was sent is no longer than a field takes once lowered, and folding it again changes nothing; and the time is within reach. |
| `NormalizeLaws.FoldFits` | backend/internal/ingest/sources.go:169-180 | What an action that may be stored folds to may be stored if and only if it is no longer than a field takes once lowered, however characters are lowered. |
| `Vendors.LongActionGrows` | backend/internal/ingest/sources.go:169-180 | A record whose action is 1024 times U+023A becomes an event whose action is 3072 bytes long. |
| `Vendors.SynonymsFoldOnce` | backend/internal/ingest/sources.go:161-167 | No synonym leads to another, and each leads to a word the database takes, in lower case. |
| `NormalizeLaws.NormalTags` | backend/internal/ingest/normalize.go:389-406 | An event's tags are distinct, can be stored, start with what the sender's come to, and are exactly those sent or derived. |
| `NormalizeLaws.DerivedAre` | backend/internal/ingest/normalize.go:146-147 | A tag is derived if and only if a step asked for it or complained with it. |
| `EventLaws.LineEvent` | backend/internal/ingest/normalize.go:286-329 | Field by field, over the event: the first pair of a line whose key, lowered or as an alias, names the field and whose value it can take gives it, whatever the header says; else the host is the header's or the peer's address, the process its app, the severity its own on the scale 10, 9, 8, 7, 5, 3, 2, 0, and the event type the source's. |
| `EventLaws.RecordEvent` | backend/internal/ingest/sources.go:18-91 | Of any other record, the first key of the table that says something of the field gives it, then the cloud object's, and else what its source implies, by the event's type in the end. |
| `EventLaws.RefusedExactly` | backend/internal/ingest/normalize.go:82-137 | A record is refused if and only if its tenant, its source or a missing message says so, and the code is that of the first that does. |
| `EventTags.LoginTagged` | backend/internal/ingest/sources.go:18-91 | An event is tagged auth_success or auth_failure if and only if its source and type make it such a login, or the sender said so. |
| `EventTags.TimeTagged` | backend/internal/ingest/normalize.go:361-387 | An event's time is the record's own, else the header's, else the receipt's, else now; or now and tagged so, if and only if that is longer ago than the retention or over an hour ahead. |
| `EventComplaints.TagsExactly` | backend/internal/ingest/normalize.go:202-316 | An event has a tag if and only if it can be stored and is what one of the sender's comes to, or one earned: by how a login went, by a time out of reach, or, as `invalid:` and the key, by a value that has no text form, or that the field cannot take while nothing before gives it. |
| `EventTags.PayloadKept` | backend/internal/ingest/normalize.go:253-262 | The payload kept is the line, or the record's raw if that is an object, or all of the record but received_at, peer_ip and input. |
| `UrlFilters.ReadFilters` | frontend/src/lib/filters.ts:60-82 | The loop reads the filters of the specification from a URL. |
| `UrlFilters.WriteFilters` | frontend/src/lib/filters.ts:85-103 | Setting and appending leaves the parameters of the specification, in order, none overwritten. |
| `UrlFilters.WrittenRead` | frontend/src/lib/filters.ts:85-103 | Every parameter reads back as the values it was written with. |
| `UrlFilters.WriteThenRead` | frontend/src/lib/filters.ts:60-103 | Writing and reading back gives the same filters, less what the pages cannot show. |
| `UrlFilters.ReadIsShown` | frontend/src/lib/filters.ts:60-82 | What was read has nothing in it the pages cannot show. |
| `UrlFilters.ReadWriteRead` | frontend/src/lib/filters.ts:60-103 | Reading, writing and reading again changes nothing. |
| `UrlFilters.EventQuery` | frontend/src/lib/filters.ts:106-119 | The API is asked for exactly the filters shown, over the range's window. |
| `PageLaws.UrlSays` | frontend/src/lib/filters.ts:45-82 | Parameter by parameter, what a URL says: a parameter counts as it first comes; the sources are those there are and the tags those not blank, each where it first comes; a severity is a number from 0 to 10; the range is both dates, or the preset named, or the last 24 hours. |
| `PageLaws.UrlTexts` | frontend/src/lib/filters.ts:60-82 | A text is there if and only if its parameter says anything, and is that, trimmed. |
| `Texts.SpacesAre` | frontend/src/lib/filters.ts:60-82 | The backend's spaces are the 25 code points with the White_Space property; the pages' are those without U+0085 and with U+FEFF. |
| `PageLaws.PresetsAreNamed` | frontend/src/lib/timeRange.ts:4-10 | A preset lasts as long as its id says. |
| `PageLaws.RangeAsked` | frontend/src/lib/timeRange.ts:26-36 | The page asks for the dates picked, or for as long as the preset says up to the start of the next minute. |
| `PageLaws.FiltersAsked` | frontend/src/lib/filters.ts:106-119 | The page asks for the events that are like everything it shows, and no others. |
| `AlertLink.LinkResolves` | frontend/src/lib/alertSearch.ts:5-18 | An alert's link, written to a URL, read back, asked of the API and checked there, is never refused, and keeps the window, the tenant and the severity. |
| `AlertLink.LinkFinds` | frontend/src/lib/alertSearch.ts:5-18 | If the page's trim leaves its texts alone, the link selects exactly the tenant's events of the window that meet the rule, if it is known, and are of the group, if it is not a destination address. |
| `AlertLink.LinkIsExact` | frontend/src/lib/alertSearch.ts:5-18 | For a rule grouped by src_ip, user or host, the link selects exactly what the rule counts for the group and window if and only if the page's trim leaves every text of the link alone. |
| `AlertLink.LinkFindsCounted` | frontend/src/lib/alertSearch.ts:5-18 | Of any events, the link of a firing then selects exactly the set the evaluation counted. |
| `AlertLink.LinkCoversCounted` | frontend/src/lib/alertSearch.ts:5-18 | If the page's trim leaves its texts alone, the query the link resolves to selects every event the evaluation counted, whatever the rule groups by and whether it is still known. |
| `AlertLink.MarkedUserIsMissed` | frontend/src/lib/alertSearch.ts:5-18 | A user name that starts with a byte order mark is counted by the rule and missed by the link. |

## Left out

Members whose statement is narrower than what the code does:

- Alerts.OrderBy: takes byte order, where the statement names no collation (backend/internal/store/alerts.go:202); nothing else depends on it than the order in which one evaluation's firings are recorded.
- Builder.EventBuilder.FromSyslog: reads a line as `Syslog.ParseSyslog` specifies, so on the lines that index out of range it says what should happen.
- SyslogLaws.RoundTrip: covers messages with an RFC 5424 header only; `SyslogForms.LineExactly` covers every line.
- SyslogForms.LineExactly: says what a line should be read as; on the lines that index out of range the code does not get there.
- Limiter.RateLimiter.Allow: covers limits whose burst is the number a minute, which is how `New` makes them all.
- LimiterRuns.EntriesAreRecent: covers such limits only, for with a larger burst a bucket takes more than a minute to fill, and its key lasts longer.
- Normalize.Normalize: the payload is kept as read, without the re-encoding that makes its JSON storable.
- Builder.EventBuilder.Enrich: takes the names of login events and the CloudTrail payload as read by abstract functions.
- Jobs.Loop: runs are a given number of given lengths, where the code goes on until it is stopped.
- Alerting.Evaluator.Run: takes as given which rules and listings fail and when the run is stopped.
- UrlFilters.EventQuery: passes instants on as such, where the page sends their text in RFC 3339.

What is assumed or simplified:

- Two operations on the same state at once: each method runs alone, as it does under the mutex, within the transaction, or in the one goroutine the source gives it. Two evaluator replicas racing are covered only as a sequence of evaluations.
- Floating point in the limiter: arithmetic is exact, on reals and integers. `remaining >= 0` is a comparison of whole nanoseconds.
- Limits the limiter is not made with: the burst equals the number a minute, an interval is at least a nanosecond, and the clock does not go back.
- The filter hash and the cursor's encoding: the hash is injective, and a cursor is its fields. An address's text is never empty.
- Rounding to the microseconds the database stores: times compare as given.
- Collations: text is ordered by code point.
- Case: the normalizer lowers each character by a function given to it, and relies only on these laws of it: lowering twice is lowering once, what is a space and what is not stay so, only NUL becomes NUL, and a to z and U+FFFD stay as they are. The search's filters and the alert link lower A to Z only.
- UTF-8: text is a sequence of code points, so the repair of invalid bytes has nothing to do, and lengths in bytes are computed from code points. Offsets within text count code points where the source counts bytes.
- Reading addresses, integers, RFC 3339 times, CloudTrail payloads and names of login events: abstract functions, the same wherever the source uses one library call.
- What a database refuses in an event: a function of the event, with any SQLSTATE.
- The number 1000 of events in a chunk: any chunk size of at least one.
- The index of a rejection is a whole number, where the source narrows it to 32 bits; a body is never long enough for that to matter.
- A PRI is read as the source's integer reader does, which accepts a sign and leading zeros that section 6.2.1 of RFC 5424 does not.
- The regular expression of the older syslog header's time stamp (RFC 3164) is an abstract predicate on 15 characters; that of its tag is modelled by its meaning.
- The URL's percent-encoding, and a date outside the years an RFC 3339 time can name.
- A rule of an alert link is as the API stores it: texts trimmed, free of NUL and not blank, the action and the source lower case, the severity from 0 to 10. Tenants' names are plain words.

What is not modelled:

- The JSON text of event payloads: values are as read, and how they are encoded again for the database is left out.
- The prefilter of free-text search on the payload's JSON text, and escaping for ILIKE: free text matches a case-insensitive substring.
- Top values (`Top`): a grouped count with a limit, easier than the timeline.
- Alert rules' creation and validation, webhook delivery, alert ids and the alert list.
- Partitions and retention, migrations and row-level security policies, beyond that a scope sees and writes its own tenant only.
- HTTP handlers, routing, authentication and authorization, logging, metrics, configuration and generated code.
- The web pages, beyond their filters and the alert link; the Python sample senders and acceptance script.
- Timeouts and cancellation, beyond that an evaluator run may be stopped between rules.
