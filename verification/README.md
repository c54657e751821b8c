# Verification of the email-summary service

A Dafny model of the stateful parts of the service: the database-backed task queue and its workers,
the two-tier JSON cache, the policy that refreshes client summaries, and the system these three form
together; the redaction, ranking and extraction code of the search; and the client and report
tables. `dafny verify dfyconfig.toml` checks all of it.

## What is proved

**The task queue** (`TaskRows`, `TaskQueue`, `TaskQueueInv`, `TaskQueueRefinement`, `TaskLifecycle`,
`TaskDraining`, `TaskWorker`). Any number of workers poll at most five pending tasks, in no order,
and work through a list that goes stale; any number of cleaners select and delete in two statements;
all interleave at each statement, crash, or have a statement raise. Neither the `mark_*` updates nor
the clean-up delete checks the status of the row it changes, so that they are safe is a property of the
whole protocol: one inductive invariant (`TaskQueue.Inv`) shows that a claim is granted once per
task, that what a worker executes is running in its name and nobody else's, and that what a cleaner
selected stays expired until it is deleted. From it follow the refinement of an abstract queue that
hands out each task once, the one-way life cycle of every row, the safety of the clean-up, the
agreement of the clean-up counts, and how fast backlogs drain. A crashed worker leaves its task
running for good; nothing here claims that every task finishes, or that tasks are served in order.

**The cache** (`LocalStore`, `LruInclusion`, `LruWorkingSet`, `TieredCache`, `TierRetention`). Redis may fail on any
call, may or may not have applied a failed write or delete, and may forget keys. After the first
error the process uses its own LRU store for good. A lookup never returns anything but the latest
set with no invalidation after it, and finds that one as long as neither Redis nor the LRU store had a
reason to drop it. The LRU store has the inclusion property and the exact
working-set property. `TieredCache.JsonCache` is the code itself, updated in place, proved equal to
the functions these lemmas are about.

**Summaries** (`SummaryPolicy`, `SummaryService`, `EmailService`, `SummarySystem`,
`SummarySystemInv`, `SummaryRefreshInv`, `SummaryGuarantees`, `TornCommit`). The system composes
captures, which commit an email and its refresh task together, with every step of the queue, the four
steps of a refresh (decision, commit of the record after the model call, invalidation, set), reads,
invalidations, searches that share the cache, and Redis. A worker may die, and a refresh may raise,
between any two steps. In every reachable world a client whose latest email's task succeeded has a
record with fewer than five emails captured after it, each non-forced regeneration is paid for by
five captured emails of its own, and no record is lost or set back.

That a read returns what rebuilding the response from the current record returns is false of the
code: a worker that dies after the commit (app/services/summaries.py:213) and before the invalidation
(line 215), or whose reload (line 214) raises, leaves the old response in the cache.
`TornCommit.TornCommitMisleads` is a run that ends with such a reload. It is true of every client outside the set
`unpublished`, which a commit enters it into and the invalidation, the set and a rebuilding read take
it out of; `SummaryGuarantees.ReadShows` says what a reader of any client sees, and exactly when it
is right. What an overlapping read or a rename would do is stated by
`SummaryGuarantees.LateStoreGoesStale`.

**Search text** (`Regex`, `Redaction`, `SensitiveShapes`, `MaskedText`, `Snippet`, `SearchRanking`, `Text`,
`QueryExtraction`, `ClientInference`, `Sorting`). Patterns are data with the semantics of a
backtracking matcher (ordered alternatives, greedy and lazy repetition, word boundaries). Redaction
is complete, although its passes run one after the other: no later pass re-creates a match of an
earlier one. `SensitiveShapes` says the same without patterns, and `MaskedText` says what is masked and that
everything else stays; of a card-like number the matcher takes the shortest form, so that digits set apart
one by one are masked up to the thirteenth only (`MaskedText.CardShortest`). Snippets, ranking, keyword
extraction and client inference are loops proved against declarative descriptions of their results.

**Clients and reports** (`Clients`, `Reports`). The client service on tables updated in place, its
authorisation, and the reports on the joins and groupings of those tables.

## Where code and documents differ

The model follows the code. docs/ARCHITECTURE.md:133 describes summary reads as served from an
in-process cache only; the code asks Redis first (app/cache/lru.py:109-122). The docstring of
`_search_terms` (app/services/email_search.py:57) says the terms filter in the database; the search
passes no terms to the query (line 236), so the window is cut by date alone. The global report counts
as firms only those with a client (app/repositories/email_summaries.py:36-39).

## Model

| member | source | states |
|---|---|---|
| `TaskRows.TaskTable.CreateTask` | app/repositories/tasks.py:17-30 | adds one pending row with its type and payload, created and updated now, with no result, error, completion or expiry, and changes no other |
| `TaskRows.TaskTable.FetchPending` | app/repositories/tasks.py:39-46 | any min(limit, pending) of the pending ids: the query has no order |
| `TaskRows.TaskTable.ClaimPendingTask` | app/repositories/tasks.py:58-73 | moves a pending row to running and returns it; otherwise changes nothing and returns none |
| `TaskRows.TaskTable.MarkSucceeded` | app/repositories/tasks.py:76-92 | sets status, result, completion and a seven-day expiry whatever the status was |
| `TaskRows.TaskTable.MarkFailed` | app/repositories/tasks.py:95-117 | sets status, error code, completion and a thirty-day expiry whatever the status was |
| `TaskRows.TaskTable.CleanupExpiredTasks` | app/repositories/tasks.py:120-145 | removes min(limit, expired) rows and returns how many; what it takes succeeded over seven or failed over thirty days ago, and unless it reaches its limit no such row remains |
| `TaskQueueInv.StepInv` | app/tasks/worker.py:31-116 | every statement of a worker or cleaner keeps the protocol invariant |
| `TaskQueueInv.RunInv` | app/tasks/worker.py:66-116 | the invariant holds after every interleaving of any number of workers, cleaners, crashes and raised statements |
| `TaskQueueInv.ClaimForInv` | app/repositories/tasks.py:58-70 | a granted claim is the first for its task, and its winner is the one process running it |
| `TaskQueueInv.LoadFindsRow` | app/repositories/tasks.py:70-73 | the reload after a won claim always finds the row, running: no cleaner can have taken it |
| `TaskQueueInv.HeldOnce` | app/tasks/worker.py:66-77 | a task being executed is in the hands of no other worker |
| `TaskQueueInv.CrashMeaning` | app/tasks/worker.py:96-116 | a worker may crash at any time, forgets all it had in hand, and changes nothing in the database |
| `TaskQueueRefinement.StepRefines` | app/repositories/tasks.py:58-145 | each protocol step is a submission, a handout, or invisible to the abstract queue |
| `TaskQueueRefinement.RunRefines` | app/tasks/worker.py:66-116 | every run of the protocol maps to a run of the queue that hands out each id once |
| `TaskQueueRefinement.SpecHandsOnce` | app/repositories/tasks.py:61 | the abstract queue hands out each known id at most once, and exactly the ids that no longer wait |
| `TaskQueueRefinement.ExecutedOnce` | app/tasks/worker.py:66-77 | in every reachable state a task has at most one claimer, is executed at most once and by its claimer; pending means unclaimed |
| `TaskLifecycle.RunLater` | app/repositories/tasks.py:58-145 | over every run statuses only advance, terminal rows never change, deleted rows stay deleted, and a deleted row came to an outcome and was kept for the retention time of that outcome, seven or thirty days, from its completion on |
| `TaskLifecycle.RowsWellFormed` | app/models/background_task.py:24-38 | completion and expiry exactly on terminal rows, result exactly on succeeded, error exactly on failed; a row is terminal exactly when it was marked, and with that outcome |
| `TaskLifecycle.CleanupIsSafe` | app/repositories/tasks.py:125-144 | the unchecked delete only ever takes terminal rows, succeeded ones seven and failed ones thirty days after completion |
| `TaskLifecycle.DueMeaning` | app/repositories/tasks.py:126-136 | in every reachable state a row is up for clean-up exactly when its task was finished and seven days, or thirty if it failed, have passed since |
| `TaskLifecycle.FinishMeaning` | app/repositories/tasks.py:76-117 | marking a task stores its outcome, result or error code and the dates in its row, keeps the rest of the row, and touches no other |
| `TaskLifecycle.CleanupCounts` | app/repositories/tasks.py:141-145 | the counts returned by all cleaners sum to the number of tasks removed |
| `TaskDraining.QueueDrains` | app/tasks/worker.py:96-116 | n pending tasks are all claimed within ceil(n/5) passes of one worker, whatever the others do |
| `TaskDraining.ExpiredDrain` | app/tasks/worker.py:80-93 | in any run, with time passing and tasks expiring, what a cleaner leaves expired is at most the tasks expired at the start less 10000 for each of its clean-ups, and those that expired on the way |
| `TaskDraining.ExpiredGone` | app/repositories/tasks.py:120-145 | m expired tasks are all gone after ceil(m/10000) clean-ups if no others expire meanwhile |
| `TaskWorker.Worker.ProcessTaskById` | app/tasks/worker.py:66-77 | executes a task exactly when it is pending, and leaves its row succeeded or failed as the refresh went |
| `TaskWorker.Worker.WorkerPass` | app/tasks/worker.py:100-109 | a pass alone on the table executes min(5, pending) tasks and leaves every other row as it was |
| `TaskWorker.ProcessingIsARun` | app/tasks/worker.py:66-77 | processing one task is the protocol's claim, load and finish, and leaves the same table |
| `LocalStore.RunValid` | app/cache/lru.py:115-135 | after every run the store has no duplicate keys, one entry per key, and at most the maximum of items |
| `LocalStore.SetEntries` | app/cache/lru.py:132-135 | after a set, old entries are unchanged or evicted, and the new one is there exactly when there is room for any |
| `LocalStore.GetMeaning` | app/cache/lru.py:115-122 | a lookup drops an entry older than its TTL, makes a live one the newest, and leaves the others as they are |
| `LruInclusion.RunIncluded` | app/cache/lru.py:115-135 | driven by the same calls, the smaller store's order is the larger one's without at most the extra capacity |
| `LruInclusion.MoreCapacityKeepsHits` | app/cache/lru.py:132-135 | a lookup that hits hits with every larger capacity, and finds the same payload |
| `LruWorkingSet.OrderIsLastUse` | app/cache/lru.py:121-133 | in every reachable store the keys stand in the order of their last use |
| `LruWorkingSet.SurvivesWorkingSet` | app/cache/lru.py:132-135 | a key survives while fewer than the maximum of distinct other keys were used since, and, with nothing removed, only then |
| `TieredCache.JsonCache.RedisSet` | app/cache/lru.py:83-93 | a failed write reports failure and turns Redis off, whether or not it took effect |
| `TieredCache.JsonCache.GetJsonCache` | app/cache/lru.py:109-122 | answers from Redis, else from the local store, dropping an expired entry and moving a live one to the end |
| `TieredCache.JsonCache.SetJsonCache` | app/cache/lru.py:125-135 | stores in Redis, or locally when that fails, evicting the oldest entries down to the maximum |
| `TieredCache.JsonCache.InvalidateSummaryCache` | app/cache/lru.py:154-159 | deletes the key from Redis and, in any case, from the local store |
| `TieredCache.NeverStale` | app/cache/lru.py:56-159 | after any calls with any Redis failures, a lookup returns nothing or the latest set not invalidated since, and once Redis is off nothing older than its TTL |
| `TieredCache.FailoverIsSticky` | app/cache/lru.py:56-106 | once the local store holds anything, Redis is never used again |
| `TieredCache.SetThenGet` | app/cache/lru.py:109-135 | exactly when a value just set is found again |
| `TierRetention.LatestIsFound` | app/cache/lru.py:56-159 | after a set and any calls on other keys a lookup finds the payload: with Redis exactly when it answers all calls and keeps the key, without it when fewer than the maximum of other keys were used and the TTL is not over, and, with nothing removed, only then |
| `TierRetention.InvalidateSparesOthers` | app/cache/lru.py:154-159 | an invalidation takes its own key out of every lookup and leaves every other key's as it was, unless Redis fails on it |
| `TierRetention.GetSparesOthers` | app/cache/lru.py:109-122 | so does a lookup of another key |
| `TierRetention.SetSparesOthers` | app/cache/lru.py:125-135 | so does a set of another key as long as there is room for it |
| `TierRetention.OffIsLocal` | app/cache/lru.py:109-159 | without Redis every run of calls is a run of the local store |
| `SummaryPolicy.ListedInOrder` | app/repositories/emails.py:30-41 | the emails handed to the model are the client's own that were sent in the range, ends included, each as often as stored and no other, in the order they were sent |
| `SummaryPolicy.NewerCount` | app/repositories/emails.py:57-67 | the count is the number of the client's emails captured strictly after the instant |
| `SummaryPolicy.DecideMeaning` | app/services/summaries.py:120-163 | each of the five decisions exactly when the range, the client, the emails in the range, the record, the force flag and the five newer emails say so; a forced refresh never skips |
| `SummaryPolicy.ResponseMeaning` | app/services/summaries.py:40-69 | a response carries the client and the record's date; a skip its reason and no result, any other the whole report |
| `SummaryPolicy.ReadCaches` | app/services/summaries.py:87-90 | a response that had to be rebuilt is found by the next lookup, and exactly when |
| `SummaryPolicy.CommitCaches` | app/services/summaries.py:213-222 | after a refresh a lookup finds its response or nothing, and exactly when |
| `SummaryPolicy.CaptureRefreshDecides` | app/services/summaries.py:120-163 | the refresh a capture enqueues skips or regenerates exactly when its email was not sent before the epoch; otherwise its range is refused |
| `SummaryService.SummaryService.ReadCachedSummary` | app/services/summaries.py:72-90 | a cached response, or the one rebuilt from the record and then cached, or not found |
| `SummaryService.SummaryService.ReadAuthorizedSummary` | app/services/summaries.py:93-102 | missing clients and foreign firms are refused before the cache is touched |
| `SummaryService.SummaryService.RefreshClientSummary` | app/services/summaries.py:105-222 | record and log row change together, field by field, and only when the refresh regenerates and the model answers; the cache changes only when the record also reloads after the commit; a skip answers with its reason, the record's date and no result; refusals, skips and model failures change nothing |
| `SummaryService.SummaryService.MaybeRefreshSummaryForNewEmail` | app/services/summaries.py:225-254 | refreshes exactly without a record or with five new emails, and that refresh never skips; otherwise only invalidates |
| `SummaryService.RefreshIsARun` | app/services/summaries.py:105-222 | however a refresh goes, its steps form a legal run of the system that leaves the tables and the cache the service leaves |
| `SummaryService.FailedRefreshIsARun` | app/services/summaries.py:213-214 | a refresh whose record does not reload after the commit is a run that ends torn: record stored, cache untouched |
| `SummaryService.ReadsAreCalls` | app/services/summaries.py:72-90 | a read in the system does to the cache what the read of the service does |
| `EmailService.EmailService.GetClientByEmailForUser` | app/services/emails.py:123-149 | finds the client exactly when one and only one client visible to the user has the address; several conflict, none is not found |
| `EmailService.EmailService.MockSendEmail` | app/services/emails.py:217-275 | the client, the sending time by the order sent, received, created, and the pending row of the refresh task, field by field and not forced; email and row are both stored or neither is; why it fails |
| `EmailService.EmailService.MockReceiveEmail` | app/services/emails.py:278-335 | the same for inbound mail, by the order received, sent, created |
| `EmailService.CapturesAreCalls` | app/services/emails.py:259-263 | a capture in the system stores the same email and row |
| `SummarySystemInv.ProcessInv` | app/tasks/worker.py:31-116 | queue steps, crashes included, keep the invariant of the service |
| `SummarySystemInv.CaptureInv` | app/services/emails.py:259-263 | a capture keeps the invariant of the service, since its task comes with it |
| `SummaryRefreshInv.BeginInv` | app/services/summaries.py:120-163 | the refresh decision keeps the invariant of the service |
| `SummaryRefreshInv.StoreInv` | app/services/summaries.py:188-213 | the commit of record and log row keeps the invariant of the service |
| `SummaryRefreshInv.RetractInv` | app/services/summaries.py:215 | the invalidation after the commit keeps the invariant of the service |
| `SummaryRefreshInv.PublishingInv` | app/services/summaries.py:220-222 | the set of the new response keeps the invariant of the service, and makes the task done |
| `SummaryRefreshInv.FiveNewEmails` | app/services/summaries.py:143-149 | a regeneration that was not forced has five emails captured between the old record and its decision |
| `SummaryGuarantees.StepInv` | app/services/summaries.py:72-222 | every event of the system keeps its invariant |
| `SummaryGuarantees.LatestEmailRefreshed` | app/services/summaries.py:142-163 | once the task of a client's latest email succeeded, there is a record with fewer than five emails captured after it |
| `SummaryGuarantees.QuiescentUpToDate` | app/services/emails.py:259-263 | when every capture task succeeded, that holds for every client with an email |
| `SummaryGuarantees.CapturedEmailHasTask` | app/services/emails.py:102-120 | in every reachable world the refresh task of each captured email is in the table, for its client, with no start, its sending time as end and not forced, or was finished |
| `SummaryGuarantees.CaptureTaskSkips` | app/services/summaries.py:142-161 | the task of a capture whose client has a record and fewer than five newer emails is done without asking for a report |
| `SummaryGuarantees.QuiescentOutcome` | app/services/summaries.py:142-163 | with nothing pending or running, a client with an email is behind only if the task of its latest email failed |
| `SummaryGuarantees.CacheTransparent` | app/services/summaries.py:72-90 | in every reachable world a read of a client whose commits were all followed by an invalidation, a set or a rebuilding read returns exactly the response rebuilt from the current record, and not found exactly without a record |
| `SummaryGuarantees.ReadShows` | app/services/summaries.py:72-90 | a read of any client shows, on a hit, the record behind the latest cached response, never a later one than the current; it is right exactly when it misses or that record is the current one |
| `SummaryGuarantees.UnpublishedMeans` | app/services/summaries.py:213-215 | a commit not yet followed by one of these is that of a refresh in flight between its commit and its invalidation, or of one that ended there |
| `SummaryGuarantees.UntornIsTransparent` | app/services/summaries.py:72-222 | so reads are right for every client none of whose refreshes is or ended between these two steps |
| `SummaryGuarantees.Republishes` | app/services/summaries.py:80-90 | the invalidation of a refresh, any other one, and a read that misses each make the client's reads right again |
| `TornCommit.TornCommitMisleads` | app/services/summaries.py:213-215 | a run from the start after which the record is the second one, its refresh is over, and a read that Redis answers shows the first report |
| `SummaryGuarantees.LateStoreGoesStale` | app/services/summaries.py:80-90 | a response built before a change and stored after it is what later reads show, exactly unless nothing in it changed or the lookup misses |
| `SummaryGuarantees.RegenerationsPaid` | app/services/summaries.py:142-161 | five times the non-forced regenerations of a client's record is at most its captured emails |
| `SummaryGuarantees.StoreCounted` | app/services/summaries.py:188-213 | what is counted there is each commit that replaces a record without being forced |
| `SummaryGuarantees.RunRecordLater` | app/services/summaries.py:188-213 | over every run no record is lost and none goes back in time |
| `Regex.ClassMeaning` | app/services/email_search.py:22-26 | what `\d`, `[ -]`, `\s` and `\w` admit, in ASCII |
| `Regex.BoundaryMeaning` | app/services/email_search.py:22-26 | `\b` is where a word begins or ends |
| `Regex.MatchIsLocal` | app/services/email_search.py:22-26 | a match depends on nothing but the stretch it covers and the word boundaries in it |
| `Redaction.MatchSurvives` | app/services/email_search.py:76-81 | a match in a masked text that overlaps no mask was a match in the text before masking |
| `Redaction.RedactionComplete` | app/services/email_search.py:76-81 | after all passes no control character and no match of any pattern remains, and the text is no longer than before |
| `Redaction.RedactionIdempotent` | app/services/email_search.py:76-81 | redacting again changes nothing |
| `Redaction.RedactionKeepsCleanText` | app/services/email_search.py:76-81 | a text with nothing to hide is left as it is |
| `Redaction.RemoveControlOne` | app/services/email_search.py:21 | the codes below 32 but for tab, line feed and carriage return, and 127, are removed |
| `Redaction.RemoveControlParts` | app/services/email_search.py:78 | character by character: the others stay, in order |
| `MaskedText.RedactMeaning` | app/services/email_search.py:76-81 | the text less its control characters, the social security numbers masked, in that the employer numbers, in that the card-like numbers, everything else in its place |
| `MaskedText.HidesOneWay` | app/services/email_search.py:79-80 | read from left to right, masking the shortest identifier wherever one begins, a text can be cut up in one way only |
| `MaskedText.CardShortest` | app/services/email_search.py:25 | of the card-like numbers that begin at a place the matcher takes the shortest |
| `Redaction.RedactSensitiveText` | app/services/email_search.py:76-81 | the loop over the patterns computes the redaction these lemmas are about |
| `SensitiveShapes.SsnMeaning` | app/services/email_search.py:23 | the pattern matches exactly the stand-alone ddd-dd-dddd |
| `SensitiveShapes.EinMeaning` | app/services/email_search.py:24 | the pattern matches exactly the stand-alone dd-ddddddd |
| `SensitiveShapes.CardMeaning` | app/services/email_search.py:25 | the pattern matches exactly the delimited stretches of 13 to 19 digits, spaces and dashes that start with a digit |
| `SensitiveShapes.NothingSensitiveRemains` | app/services/email_search.py:76-81 | no such number stands anywhere in a redacted text |
| `Snippet.MakeSnippet` | app/services/email_search.py:61-73 | the redacted window from the start of the word around the 60th character before the first hit, at most 223 characters |
| `Snippet.SplitMeaning` | app/services/email_search.py:56-64 | the words of a query are the stretches between white space, and nothing but white space is lost |
| `Snippet.SplitOfJoin` | app/services/email_search.py:56-64 | words joined by spaces are split into the same words |
| `Snippet.SplitAtSpace` | app/services/email_search.py:56-64 | the words on both sides of a white space are those of the sides |
| `Snippet.FirstHitMeaning` | app/services/email_search.py:64-70 | the window is placed by the first term that occurs at all, at its first occurrence |
| `Snippet.WindowMeaning` | app/services/email_search.py:71-72 | the window is the text from its start, at most its length, less the white space at both ends, with an ellipsis exactly when the text goes on |
| `SearchRanking.HaystackMeaning` | app/services/email_search.py:44-52 | a term occurs in a row exactly when it occurs in one of the five fields, whatever the case |
| `SearchRanking.ScoreMeaning` | app/services/email_search.py:53 | a row's score is the number of terms that occur in it |
| `SearchRanking.AccessibleMeaning` | app/repositories/emails.py:112-121 | who asks, the client and the two dates each filter the rows, independently |
| `SearchRanking.MatchesInOrder` | app/services/email_search.py:239-243 | matches come in the order of their rows |
| `SearchRanking.RankingStable` | app/services/email_search.py:244-248 | rows with equal score and date keep the order of the database |
| `SearchRanking.TopOfWindow` | app/services/email_search.py:239-248 | the ranking is the top `limit` of the positive candidates by score and date: sorted, no duplicates, none omitted that outranks one returned |
| `SearchRanking.TopOfAccessible` | app/services/email_search.py:227-248 | when the accessible rows fit min(max(10*limit,100),1000), it is the top `limit` over all of them |
| `SearchRanking.WindowsIsolated` | app/repositories/emails.py:112-139 | rows of other firms change nothing in the windows, and so the results, a firm's user may get, ties in sending time included; all results are the firm's |
| `SearchRanking.SearchIsolated` | app/repositories/emails.py:112-139 | with no two accessible rows sent at once there is one window, so the results are the same |
| `SearchRanking.SearchEmailContext` | app/services/email_search.py:147-260 | the refusals in their order; otherwise the ranked top of the window of the table, and of all accessible rows whenever they fit the candidate limit, each result with a snippet that shows no identifier |
| `QueryExtraction.KeywordsAre` | app/services/conversation.py:137-148 | every extracted keyword has two characters, is no number and no stopword, and is trimmed |
| `QueryExtraction.KeywordsAtGap` | app/services/conversation.py:139-142 | the keywords on both sides of a character no token may hold are those of the sides |
| `QueryExtraction.KeywordsOfWord` | app/services/conversation.py:139-147 | a word is extracted, in lower case and less its punctuation, exactly when that is of two characters, no number and no stopword |
| `QueryExtraction.SearchQueryMeaning` | app/services/conversation.py:148 | the query reads as the keywords, or is the question less the white space around it when there are none |
| `QueryExtraction.KeywordsOfKeywords` | app/services/conversation.py:137-148 | any sequence of keywords, joined by spaces, is extracted as it is: none is lost, cut or merged |
| `QueryExtraction.ExtractionIdempotent` | app/services/conversation.py:137-148 | extracting from an extracted query changes nothing, with or without keywords |
| `ClientInference.ReferenceMeaning` | app/services/conversation.py:188-189 | a client is named by its id exactly where "client", white space, a number sign or none and the id stand as a phrase of their own |
| `ClientInference.NamePartMeaning` | app/services/conversation.py:192-194 | a part of a name is found exactly where it stands as a word of its own |
| `ClientInference.ScoreMeaning` | app/services/conversation.py:180-201 | a client scores exactly when the question names its email, name, id or a word of its name; the score is the exact worth of one way it was named and no less than that of any other |
| `ClientInference.InferenceMeaningAll` | app/services/conversation.py:178-213 | an id is inferred exactly when its client scores and strictly leads all others by score and name length |
| `ClientInference.OrderIrrelevant` | app/services/conversation.py:178-213 | the order of the candidates does not matter |
| `ClientInference.InferConversationClientId` | app/services/conversation.py:151-213 | the loop, sort and tie check compute that leader |
| `Clients.ClientService.CreateClientService` | app/services/clients.py:77-107 | stores the client or refuses, in the order of the checks, and keeps one client per firm and address |
| `Clients.ClientService.UpdateClientService` | app/services/clients.py:110-152 | changes the fields given or refuses, and keeps one client per firm and address |
| `Clients.ClientService.DeleteClientService` | app/services/clients.py:155-165 | removes the client and its summary, or refuses |
| `Clients.CreateMeaning` | app/services/clients.py:37-107 | a creation succeeds exactly when its firm is one the user may use, exists and has the address free; it adds that client and changes no other |
| `Clients.CreateRefusals` | app/services/clients.py:37-98 | why a creation is refused |
| `Clients.UpdateMeaning` | app/services/clients.py:110-152 | an update succeeds exactly when access, firm and address allow it; given fields are set, others kept, other clients untouched |
| `Clients.UpdateRefusals` | app/services/clients.py:110-141 | why an update is refused |
| `Clients.DeleteMeaning` | app/services/clients.py:155-165 | a deletion takes away the client and its summary and nothing else, exactly when the user may access it |
| `Clients.RunConsistent` | app/models/client.py:21-27 | the keys and uniqueness constraints hold after every sequence of requests |
| `Clients.OutsidersKeepClients` | app/services/clients.py:26-48 | no sequence of requests by users of other firms changes, adds, moves or removes a firm's clients |
| `Reports.GroupedAsCounted` | app/repositories/email_summaries.py:21-41 | the count of a firm's group in the outer join is the count of its inner join |
| `Reports.GlobalAddsUp` | app/services/reports.py:39-60 | the total is the number of summary records, the number of rows that of firms with clients |
| `Reports.ReportsAddUpAfterRuns` | app/services/reports.py:39-60 | that holds, and each count is at most the firm's clients, after every run of creations, changes, deletions and refreshes |
| `Reports.CoverageMeaning` | app/services/reports.py:28-30 | before rounding, coverage is within 0 and 100, 100 exactly when a firm with clients has all summarised, 0 exactly when none is |
| `Reports.ReportedCoverage` | app/services/reports.py:28-36 | as returned, rounded to one decimal, coverage is within 0 and 100; 100.0 above 1999 of 2000 clients and never below, 0.0 below 1 of 2000 and never above |
| `Reports.RoundingMisleads` | app/services/reports.py:34 | 9999 of 10000 clients are reported as 100.0 and 1 of 10000 as 0.0 |
| `Reports.MoveMovesCount` | app/services/clients.py:110-152 | moving a client moves its count and no other |
| `Reports.SummaryAddsOne` | app/models/email_summary.py:18-25 | a first summary adds one to the count of the client's firm, a later one nothing |
| `Reports.DeleteTakesOne` | app/services/clients.py:155-165 | a deleted client leaves the counts of its firm and no other |
| `Reports.OutsidersKeepCoverage` | app/services/reports.py:18-36 | users of other firms never change a firm's coverage |

## Left out

- TaskWorker.Worker.WorkerPass: runs the polled tasks one after the other, where the source gathers them concurrently; every interleaving is a run of `TaskQueue`.
- SummaryGuarantees.CacheTransparent: speaks of reads that do not overlap a refresh of the same client, of one process with one local store, and of clients that are not renamed or moved while cached; `SummaryGuarantees.LateStoreGoesStale` says what happens otherwise, and `SummaryGuarantees.ReadShows` what a commit without an invalidation does.
- SummaryGuarantees.LatestEmailRefreshed: "new" is by capture time; nothing is claimed about which email texts a report covers, because a refresh filters by sending time.
- SummaryService.SummaryService.RefreshClientSummary: failures between the model call and the commit (encryption, embedding, the commit itself) are not modelled; fields assigned before such a failure may be written by the later commit of the failed task, which takes column-level tracking to say. The dates handed to the model are not kept.
- Reports.CoverageMeaning: speaks of the unrounded percentage; `Reports.ReportedCoverage` speaks of the returned one, with exact division and with halves going either way.
- SearchRanking.SearchEmailContext: the keyword path with the search cache off; the vector retrieval before it and its relevance threshold are not modelled, and a result shows its row instead of the response fields copied from it.
- EmailService.EmailService.MockSendEmail: the embedding is a flag and the commit one assignment at the end, so that both rows are stored or neither follows from the shape of the method; an email keeps its client, its two times and its task.
- EmailService.EmailService.MockReceiveEmail: the same.
- ClientInference.InferConversationClientId: the candidate query, with its email, id and name-term extraction, is a parameter.
- TieredCache.JsonCache.GetJsonCache: time to live in Redis is the server forgetting keys at any time; JSON encoding and the digest in a key are taken as lossless and collision-free, and an empty payload does not occur.
- A restart of the process that holds the local store, which empties it and forgets the failover; a crash in the system is that of a worker, not of the cache.
- Refreshes of the same client that overlap; in the system a client has at most one refresh between its decision and its commit.
- A refresh decides in one step: the listing of the emails and the count of the new ones see the same database.
- `mark_running`, which nothing calls and which would break the claim discipline.
- The endless loops of the worker and of the clean-up, and their sleeps; `TaskQueue` lets each process take its next step at any time.
- Deleting clients in the composed system; `Clients` and `Reports` have it.
- Text outside ASCII: lower-casing keeps lengths only there.
- HTTP routes, authentication, settings, logging, metrics, rate limiting, migrations, the language model, embeddings, encryption.
- Date-range and limit extraction from questions, the wording of answers, message fields beyond those named, cache statistics.
