# Verification model of the event aggregator

The event aggregator polls news articles, asks a language model to classify each of them once,
stores the classifications, and folds them into long-lived events. This project models that logic in
Dafny and proves what the program relies on: that an article is extracted at most once, that events
come out the same however often a clustering run fails and is repeated, that text cleaning can be
repeated, that no article is lost from the counters, and a few smaller pieces with laws of their own.
`dafny verify dfyconfig.toml` checks everything.

## How the program is modelled

* **Rows, requests and workers** (`ExtractionTable`, `Persist`, `ClaimProtocol`, `WorkerPool`). A SQL
  statement is one atomic change of a table. `Repository` and `Extractor` are the objects the program
  calls, and `Persist.RunAndPersistWithOutcome` is the program's order of calls; its contract says that
  it does to the table, and asks of the extractor, what one caller of the claim protocol does in three
  uninterrupted steps. The protocol itself is a
  step system: `Step` is one atomic step of one caller, a move carries everything that the state does
  not determine (which caller, whether a connection fails before or after the statement took effect,
  the clock, the answer of the extractor), and `Exec` runs a list of moves. A theorem about all move
  lists is a theorem about all interleavings, with aborts anywhere. The worker pool adds the channel,
  its closing, the result slots and the final return, for any number of batches next to each other and
  next to single requests; every run of pools is a run of the claim protocol.
* **Events** (`Labels`, `ClusterKey`, `Events`, `Means`, `Aggregation`, `EventFold`, `EventPartition`,
  `ClusterInput`, `IncrementalClustering`, `ClusteringTheorems`, `ClusterService`). The event store is
  compared with a fold over whole clusters. `IncrementalClustering` composes the claim protocol with
  the clustering process: rows become done while runs load the cursor, list, upsert, fail, and store
  the cursor. `ClusterService` has the program's own loops over a repository object, and proves that
  each run of them is a run of that system.
* **Cleaning** (`Text`, `Normalization`, `Fragments`, `HeadTail`, `Cleaning`, `Noise`). Text is a
  sequence of code points with the white space of Go spelled out. `Noise` says what the filters look at
  in terms of positions.
* **The polling cycle** (`Scheduler`, `CycleCounters`, `SchedulerCycle`), with the pages, the batch replies and the
  outcomes of waits as functions of what is asked, behind an object that logs every call in order. The
  contracts fix the log: which pages, which cooldowns and which batches, each how often.
* **Smaller pieces**: `BatchResponse` (slots and queues of a batch request), `InFlight` (the gauge),
  `Dsn` (the DSN splitter), `Backoff` (retries).
* `Results`, `Sorting` and `Counting` hold what several modules share.

Loops of the program are loops here, each proved against a specification function or predicate; the
theorems are about those functions.

## Assumptions

* Letter case and the letter and digit tables of Unicode are parameters (`Text.Unicode`); `Sound`
  lists the four facts used about lower case. SHA-256 is a parameter without collisions and without
  an empty digest (`ClusterKey.Keying`).
* Confidence is a `real`, times are integers in nanoseconds since the Unix epoch, article numbers are
  unbounded integers. The retry delays are the exception: there 64-bit arithmetic is written out.
* There is one clustering process.
* A row that becomes visible late has finished after every cursor stored and every row absorbed so
  far; while a run is under way, also after the rows it has listed, or after its own time if it listed
  none, because that is the cursor it is going to store (`IncrementalClustering.Visible`). Between runs
  this is enough whatever failed before (`ClusteringTheorems.CatchesUpIf`), and rows after the cursor
  are needed (`CatchesUpOnlyIf`). The two conditions are the same, and the hypothesis is exact, where
  the cursor is at the last row absorbed (`CatchesUpIff`). After a failed run the cursor may lie before
  that row. `CatchesUpTo` says what the next run makes in any case: the fold of what was absorbed,
  followed by the listed rows that were not; a new row between cursor and last absorbed row is then
  folded late, which is the one-pass store exactly if the order makes no difference.
  `EmptyRunSkipsLateRow` is a run of the extraction protocol that goes wrong without the hypothesis.

## Where the code differs from what one might expect

* `ProcessIdempotentIff`: cleaning twice is cleaning once exactly if the filtered text fits in 15000
  characters. A text that was cut contains the joiner with a blank before its dots, and the second
  cleaning closes that blank. `SomeTextIsCut` is such a text.
* `CommaCollision` and `BarCollision`: the payload of a cluster key joins labels with commas and fields
  with bars, so the country `a,b` and the two countries `a` and `b` share a key, for any labels. `PayloadIff`
  needs labels without bars in which every comma is followed by white space, as in the industry list
  of the prompt. `StoredLabelsIff` says exactly when an event still has the labels of its articles.
* `DirectionDecidedByFirstTwo`: a standing direction votes with the weight of all its sources against
  one vote, so after two articles it never changes again. It is not the majority over the articles.
* `ClosedFormIff` and `DelayBoundsIff`: the backoff has its closed form exactly if no doubling leaves
  the 64-bit range, and then stays between base and maximum for every attempt and every jitter exactly
  if the maximum and a fifth of it are in range together; the settings of the client are inside both
  (`DefaultNeverWraps`).
* `BoundIff`: no value on the way to a delay exceeds the larger of the initial delay and twice the
  maximum, exactly if the initial delay is not above the maximum; `BoundExceeded` has the values 10,
  20, 4. This is for an initial delay whose double is in range. Beyond that, an initial delay up to the
  maximum still keeps the bound (`BoundHolds`), and one above it may (`WrappedDelayStays`).
* `DoWithRetry`: completed waits are one fewer than requests; a wait that is cancelled comes on top.
* `CountsTheDifference`: the gauge counts increments minus decrements exactly as long as decrements
  never outnumber increments; further decrements are swallowed at zero.

## Model

| member | source | states |
|---|---|---|
| ClaimProtocol.AtMostOneExtraction | internal/app/extraction/persist.go:57-98 | in every interleaving with aborts anywhere, an article is granted at most once, the extractor is called for it at most once and only under a grant, and no two callers hold it together |
| ClaimProtocol.LoserFindsRow | internal/repository/extraction/repository.go:220-274 | the read after a lost claim always finds a row, and the answer is what its status says: pending without error, failed with the stored message, or done with the stored result |
| ClaimProtocol.HeldIsPending | internal/app/extraction/persist.go:71-76 | while a caller holds an article, every healthy read of another caller answers pending |
| ClaimProtocol.ClaimIsStored | internal/repository/extraction/repository.go:220-274 | the claim that takes effect leaves a pending row with its model and start time and no other column, and grants the article exactly if it was healthy |
| ClaimProtocol.SuccessIsStored | internal/repository/extraction/repository.go:314-391 | a write of a result that takes effect leaves a done row with that result, its finishing time, the start time of the claim and no error; the caller reports success exactly if it was healthy |
| ClaimProtocol.FailureIsStored | internal/repository/extraction/repository.go:393-425 | a write of a failure that takes effect leaves a failed row with its message and finishing time and no extracted column; the caller reports that message as an error |
| ClaimProtocol.FinishedRowsNeverChange | internal/repository/extraction/repository.go:314-425 | along every run rows are never removed, and done and failed rows never change |
| ClaimProtocol.DoneReadsBack | internal/app/extraction/persist.go:62-97 | what a caller stored as done is the result that every later claim of the article reports, whatever happened in between |
| ClaimProtocol.FailedReadsBack | internal/app/extraction/persist.go:71-98 | what a caller stored as failed is the message that every later claim of the article is told, whatever happened in between |
| ClaimProtocol.OutcomesAreTrue | internal/app/extraction/persist.go:46-98 | whatever a caller was told holds in the table, at once and ever after: done with the stored result, failed with the stored message, or an error with a text |
| ClaimProtocol.FinishedRowsSound | internal/repository/extraction/repository.go:314-425 | every done row shows a complete result of the contract for its own article, every failed row a non-empty message and no result, every pending row neither; each has a model and its start time |
| ClaimProtocol.StepAdvances | internal/app/extraction/persist.go:46-98 | every step of a caller brings it closer to its return |
| ClaimProtocol.ApplyKeepsInv | internal/app/extraction/persist.go:46-98 | the invariant behind these theorems is kept by every move: grants, calls, held articles and rows agree |
| Persist.RunAndPersistWithOutcome | internal/app/extraction/persist.go:46-98 | the sequential program does to the table, asks of the extractor, and reports what the protocol's caller does in three uninterrupted steps |
| Persist.ClaimArticle | internal/app/extraction/persist.go:57-82 | claim and answer of a loser agree with the insert and select steps; the extraction goes on exactly with the grant |
| Persist.ExtractAndStore | internal/app/extraction/persist.go:83-98 | extraction and the two kinds of write agree with the protocol's steps; the extractor is asked once where the step asks it, and not again |
| Persist.RecordToExtractResult | internal/app/extraction/persist.go:117-143 | conversion succeeds exactly for complete valid records, and gives them with nil lists made empty |
| ExtractionTable.Repository.ClaimPending | internal/repository/extraction/repository.go:220-274 | insert-if-absent, and which of granted, done, pending, failed or an error is reported, under every fault |
| ExtractionTable.Repository.StoreSuccess | internal/repository/extraction/repository.go:314-391 | a result is written exactly if it is valid and for this article and the statement took effect |
| ExtractionTable.Repository.StoreFailure | internal/repository/extraction/repository.go:393-425 | a failure is written exactly if it has a message and the statement took effect |
| ExtractionTable.Repository.GetByArticleID | internal/repository/extraction/repository.go:430-546 | the record read back is the row, NULL lists as empty ones |
| ExtractionTable.SuccessReadsBack | internal/repository/extraction/repository.go:314-546 | what a success wrote is read back as the same result, up to nil lists |
| Extract.ResultVar.Validate | internal/extract/validate.go:107-152 | accepts exactly the results of the contract, and normalises them on the way |
| Extract.ValidateChannels | internal/extract/validate.go:166-181 | accepts exactly the lists of known channels without duplicates |
| ArticleRun.Run | internal/app/extraction/run.go:41-117 | success means a valid result for the same article; the extractor is asked exactly for complete articles with text left after cleaning, once, with that text |
| ArticleRun.InputTextIs | internal/preprocess/preprocess.go:74-100 | the text given to cleaning is the title and below it each field that is not blank, with its heading, in order |
| WorkerPool.PoolsRunClaims | internal/app/extraction/batch_persist.go:65-98 | any run of batches and requests is a run of the claim protocol |
| WorkerPool.AtMostOneExtraction | internal/app/extraction/batch_persist.go:33-98 | over all batches and requests, the extractor is called at most once per article |
| WorkerPool.StartIs | internal/app/extraction/batch_persist.go:33-63 | a batch starts exactly with a model, a concurrency of at least one, or none for two workers, and a limit that is not negative |
| WorkerPool.EachIndexOnce | internal/app/extraction/batch_persist.go:65-88 | in every schedule an index goes to exactly one worker, who runs that article with the model of the batch, and its slot is written at most once, with that article's number |
| WorkerPool.SlotHoldsOutcome | internal/app/extraction/batch_persist.go:71-83 | what a worker's run returned for its article is what the slot says for ever after: its error and nothing else, or its outcome, result and error |
| WorkerPool.ItemsAreTrue | internal/app/extraction/batch_persist.go:71-83 | the items agree with the table: newly extracted and done mean a done row with that result, failed before means a failed row with that error, and no outcome means an error |
| WorkerPool.InFlightBounded | internal/app/extraction/batch_persist.go:65-88 | never more articles in flight than the concurrency |
| WorkerPool.ReturnedIsComplete | internal/app/extraction/batch_persist.go:55-98 | a returned batch is for all its articles, or the first of them under a limit; every slot is written once with its own article, and successes and failures add up to the total |
| WorkerPool.BatchReports | internal/app/extraction/batch_persist.go:55-98 | index by index a returned batch says what one run of that article returned, and its counts are the numbers of runs that returned without and with an error |
| WorkerPool.NeverStuck | internal/app/extraction/batch_persist.go:65-98 | until a batch returns, one of its own moves is possible, in every state the invariant allows |
| WorkerPool.OwnMoveAdvances | internal/app/extraction/batch_persist.go:65-98 | every move of a batch uses up some of its measure |
| WorkerPool.OwnMovesBounded | internal/app/extraction/batch_persist.go:65-98 | in any schedule from a sound state, however long, a batch takes at most as many moves as its measure |
| WorkerPool.EveryBatchCanReturn | internal/app/extraction/batch_persist.go:65-98 | from every reachable state, moves of its own lead a batch to its return, whatever the others have done |
| WorkerPool.OtherMoveKeepsMeasure | internal/app/extraction/batch_persist.go:65-98 | moves of others leave that measure alone |
| WorkerPool.ApplyKeepsInv | internal/app/extraction/batch_persist.go:55-98 | the bookkeeping of workers, indices, slots and claims is kept by every move |
| WorkerPool.CountOutcomes | internal/app/extraction/batch_persist.go:90-96 | successes and failures of the final count partition the items |
| Labels.NormalizeStringSlice | internal/app/events/cluster.go:336-354 | the list is the ascending listing of the normalised non-empty labels, whatever order the map yields |
| Labels.MapInt64KeysSorted | internal/app/events/cluster.go:403-410 | the ascending listing of a set of numbers, whatever order the map yields |
| Sorting.LexLessIff | internal/app/events/cluster.go:388-398 | labels are ordered by the first code point in which they differ, a shorter one before what it begins |
| ClusterKey.BuildClusterKey | internal/app/events/cluster.go:162-175 | computes the digest of the specified payload from lists normalised in loops |
| ClusterKey.PayloadOfSingles | internal/app/events/cluster.go:162-175 | with one label of each kind, the payload is type, region, country, sector and industry with bars between |
| ClusterKey.PayloadIgnoresSpelling | internal/app/events/cluster.go:162-175 | order, repetition, blanks, case and padding of labels do not change the payload |
| ClusterKey.PayloadIff | internal/app/events/cluster.go:162-175 | for plain labels, two payloads are equal if and only if normalised type, region and label sets are |
| ClusterKey.KeyIff | internal/app/events/cluster.go:162-175 | the same for keys |
| ClusterKey.CommaCollision | internal/app/events/cluster.go:162-175 | for any two labels a before b, the label "a,b" and the labels a and b give one payload and different clusters |
| ClusterKey.BarCollision | internal/app/events/cluster.go:162-175 | for any labels, a bar inside a label shifts the fields behind it and gives one payload to different clusters |
| Events.MajorityDirection | internal/app/events/cluster.go:359-383 | elects a direction with the most votes, "mixed" among several if it is there, else the least; the map's order does not matter |
| Events.ElectedUnique | internal/app/events/cluster.go:359-383 | a vote has one outcome |
| Events.RoundIs | internal/app/events/cluster.go:291-294 | rounding gives the nearest integer, away from zero on ties |
| Events.NewEventFromExtraction | internal/app/events/cluster.go:180-215 | the event of a first article, or an error exactly if it would not pass validation |
| Events.MergeEvent | internal/app/events/cluster.go:220-307 | the loops and assignments of a merge give the specified event in all its fields |
| Aggregation.MergeAgain | internal/app/events/cluster.go:220-307 | merging an extraction that is already in changes nothing but times and status |
| Aggregation.AggregateContains | internal/app/events/cluster.go:180-307 | an event made of any list of extractions consists of exactly their articles and carries all their labels and times |
| Aggregation.AggregateSpans | internal/app/events/cluster.go:278-284 | first and last seen are the earliest and the latest finishing time of its articles, and are attained |
| Aggregation.DirectionDecidedByFirstTwo | internal/app/events/cluster.go:286-290 | for any number of articles, the direction is what the first two elect |
| Aggregation.StrengthDrift | internal/app/events/cluster.go:285-294 | after n articles the re-rounded strength is within (n-1)(n+2)/4n of the exact mean and within the range of its inputs |
| Aggregation.BonusNeverCompounds | internal/app/events/cluster.go:292-302 | after any number of merges the confidence lies between the exact mean and the mean plus one bonus, and is at most 1 |
| Aggregation.FullBonusIff | internal/app/events/cluster.go:292-302 | the full bonus is there exactly if no mean of the first articles, from two on, exceeded 0.98 |
| EventFold.FoldIs | internal/app/events/cluster.go:64-88 | folding rows one at a time into the store gives, per key, the event made of exactly the rows of that key in order |
| EventFold.ReplayIsIdle | internal/app/events/cluster.go:64-88 | absorbing a row again changes nothing |
| EventFold.AbsorbIgnoresTime | internal/app/events/cluster.go:64-88 | run times show only in created, updated and status |
| EventPartition.EventsDisjoint | internal/app/events/cluster.go:180-307 | different events have no article in common |
| EventPartition.EventsCover | internal/app/events/cluster.go:180-307 | an article is in some event if and only if its row was absorbed |
| EventPartition.SourcesConserved | internal/app/events/cluster.go:233-236 | the source counts of all events add up to the number of absorbed rows |
| EventPartition.EventHasLabelsOfMembers | internal/app/events/cluster.go:180-307 | if the key stands for one cluster among the rows, its event has exactly the normalised labels of each of its articles |
| EventPartition.EventLabelsIff | internal/app/events/cluster.go:180-307 | an event has the labels of all its articles if and only if equal keys mean equal normalised fields among them |
| EventPartition.PlainIsOneCluster | internal/app/events/cluster.go:162-175 | plain labels of the rows of a key are enough for that |
| EventPartition.UpsertAcceptable | internal/event/event.go:52-93 | the event written for any valid row passes validation, and so does every stored event afterwards |
| ClusterInput.InputIsResult | internal/repository/extraction/repository_events.go:76-125 | what clustering reads of a done row is, column by column, the result it holds, with its finishing time |
| ClusterInput.RowsSinceAre | internal/repository/extraction/repository_events.go:39-132 | the listing has exactly the complete done rows strictly after the time, by finishing time and then by article |
| ClusterInput.RowsSplit | internal/repository/extraction/repository_events.go:39-132 | the listing after a cursor is the rest of the listing of all rows |
| ClusterInput.RowsStay | internal/repository/extraction/repository_events.go:39-132 | rows that finish later do not change the listing up to a time |
| IncrementalClustering.StoredIsListed | internal/repository/extraction/repository_events.go:39-132 | the result that a caller stored is, field by field, in every later listing from before its finishing time |
| IncrementalClustering.ListedIsStored | internal/repository/extraction/repository_events.go:39-132 | in every reachable table, each listed extraction is a valid result that its row holds |
| IncrementalClustering.ApplyKeeps | internal/app/events/cluster.go:55-118 | every move of extraction or clustering keeps the store at a fold over a first part of the done rows, and no absorbed row is lost |
| IncrementalClustering.IncrementalIsOnePass | internal/app/events/cluster.go:55-118 | after any run whatever, failed or not, the stored events are a single fold over a first part of the done rows in order, which contains every row up to the cursor |
| ClusteringTheorems.CatchesUp | internal/app/events/cluster.go:55-118 | whatever failed before, one run without faults completes and leaves the single fold over all done rows |
| ClusteringTheorems.CatchesUpTo | internal/app/events/cluster.go:55-118 | between runs, after whatever failed and whatever new rows appeared, the next run makes the fold of what was absorbed followed by the listed rows that were not, in order |
| ClusteringTheorems.CatchesUpIf | internal/app/events/cluster.go:93-101 | between runs, after whatever failed: if all new rows finished after everything absorbed or stored as a cursor, the next run makes the one-pass store |
| ClusteringTheorems.CatchesUpOnlyIf | internal/app/events/cluster.go:93-101 | in every state between runs: if the next run makes the one-pass store, all new rows finished after the cursor |
| ClusteringTheorems.CatchesUpIff | internal/app/events/cluster.go:93-101 | where the cursor is at the last row absorbed, the next run makes the one-pass store if and only if all new rows finished after the cursor |
| ClusteringTheorems.EmptyRunSkipsLateRow | internal/app/events/cluster.go:93-101 | an empty run stores its own time, and an article whose extraction is then written with an earlier finishing time, by a run of the claim protocol, is lost to the next run |
| ClusteringTheorems.EventsPartitionArticles | internal/app/events/cluster.go:180-307 | in every reachable store the events divide the processed articles, and their counts add up |
| ClusteringTheorems.UpsertNeverRejected | internal/repository/extraction/repository_events.go:176-240 | in every reachable state the next upsert of a run passes validation, so only the database can stop a run |
| ClusteringTheorems.StoredEventsValid | internal/event/event.go:52-93 | every event in every reachable store has its names, a known status, scores in range, ordered articles as many as its sources, and ordered times |
| ClusteringTheorems.StoredLabelsIff | internal/app/events/cluster.go:180-307 | in every reachable store, an event has the labels of each of its articles if and only if equal keys mean equal normalised fields among them, whatever the other events hold |
| ClusteringTheorems.StoredLabels | internal/app/events/cluster.go:180-307 | in every reachable store, an event whose articles have plain labels has the labels of each of them |
| ClusteringTheorems.StoredScores | internal/app/events/cluster.go:285-302 | in every reachable store the scores, the direction and the time span of an event fit its articles in the order in which they were absorbed |
| ClusterService.EventRepository.ListSuccessfulExtractionsSince | internal/repository/extraction/repository_events.go:39-132 | exactly the complete done rows strictly after the bound, ordered by finishing time and article |
| ClusterService.EventRepository.UpsertEventByClusterKey | internal/repository/extraction/repository_events.go:176-240 | writes valid events only, under their key, and keeps the creation time of a stored one |
| ClusterService.EventRepository.SetClusteringCursor | internal/repository/extraction/repository_events.go:331-342 | stores the cursor unless the call failed before it took effect |
| ClusterService.Service.ClusterOne | internal/app/events/cluster.go:68-87 | find, create or merge, and write: the step of the fold, or an error with the store as it was or one step further |
| ClusterService.Service.FoldInputs | internal/app/events/cluster.go:62-88 | the loop is a run of the step system, and stops exactly at the first fault or event that is not valid |
| ClusterService.Service.ClusterNewExtractResults | internal/app/events/cluster.go:55-104 | it succeeds if and only if listing, every input and the write of the cursor did; all inputs were then absorbed in order, the cursor is the last finishing time, or the run time if there were none, and the report has the written events sorted by ID; a failure ends the run at the first call that failed |
| ClusterService.Service.ClusterFromStoredCursor | internal/app/events/cluster.go:109-118 | starts at the stored cursor or the epoch; the moves of the run are fixed by the faults; from a sound store it succeeds if and only if no database call fails, and the store has then become the one-pass store |
| ClusterService.FailureIsFault | internal/app/events/cluster.go:62-88 | on a store that is a fold, an input stops the loop if and only if its read or its write fails |
| ClusterService.WrittenTimes | internal/app/events/cluster.go:318-331 | an event written by a run is updated now, created now unless it was stored before, and active, stale or closed by the age of its last article, with the limits of two and twelve hours |
| Normalization.NormalizeIsTightJoin | internal/preprocess/preprocess.go:102-113 | normalising is joining the words of the text with no blank before punctuation |
| Normalization.CleanIffNormal | internal/preprocess/preprocess.go:102-113 | the texts that normalisation leaves alone, described character by character |
| Normalization.NormalizeIdempotent | internal/preprocess/preprocess.go:102-113 | normalising twice is normalising once |
| Normalization.NormalizeKeepsInk | internal/preprocess/preprocess.go:102-113 | no visible character is added, dropped or moved |
| Normalization.PunctuationIs | internal/preprocess/preprocess.go:102-113 | of all visible characters, exactly comma, full stop, exclamation and question mark, semicolon and colon lose the blank before them |
| Fragments.SplitFragments | internal/preprocess/preprocess.go:115-139 | the loop computes the recursive split |
| Fragments.FragmentsEnd | internal/preprocess/preprocess.go:115-139 | every fragment but the last ends with a full stop, exclamation or question mark or semicolon, and none has one inside |
| Fragments.SplitKeepsInk | internal/preprocess/preprocess.go:115-139 | splitting loses no visible character |
| Fragments.SplitRebuild | internal/preprocess/preprocess.go:115-181 | splitting the text rebuilt from clean fragments, each but the last ended by its only separator, returns them |
| Fragments.SelectionRebuilds | internal/preprocess/preprocess.go:115-181 | so it does for any selection, at whatever places, of the fragments of a clean text |
| Cleaning.RemoveBoilerplateFragments | internal/preprocess/preprocess.go:141-156 | keeps exactly the fragments without a marker, in order |
| Cleaning.FilterNoisyFragments | internal/preprocess/preprocess.go:158-173 | keeps exactly the fragments with enough words, no control text and few symbols, in order |
| Noise.KeepsIff | internal/preprocess/preprocess.go:141-173 | a fragment is kept if and only if no boilerplate marker is part of it, at least five words start in it, no control marker is found in it, and at most three in ten of its characters are symbols |
| Noise.TokensIff | internal/preprocess/preprocess.go:315-340 | a control marker without a blank is found exactly as a whole run of letters and digits |
| Cleaning.ProcessText | internal/preprocess/preprocess.go:49-56 | the program's pipeline computes the specified text |
| Cleaning.RebuiltKeeps | internal/preprocess/preprocess.go:49-56 | the rebuilt text is clean and consists of exactly the fragments both filters keep |
| Cleaning.ProcessIdempotentIff | internal/preprocess/preprocess.go:49-56 | cleaning twice is cleaning once if and only if the filtered text fits the budget |
| Cleaning.SomeTextIsCut | internal/preprocess/preprocess.go:49-56 | a text that does not fit, for which cleaning twice differs from cleaning once |
| Cleaning.ProcessKeeps | internal/preprocess/preprocess.go:49-56 | what cleaning returns for a text that fits splits into exactly the kept fragments |
| HeadTail.FindBestSentenceBoundary | internal/preprocess/preprocess.go:245-289 | the nearest sentence boundary in the window, leftmost on ties, or the target itself |
| HeadTail.SnapUnique | internal/preprocess/preprocess.go:245-289 | there is never a choice about the boundary |
| HeadTail.HeadTailExtract | internal/preprocess/preprocess.go:183-243 | the trims and cuts give the specified text; the branch that would cut the tail is unreachable |
| HeadTail.CutsAre | internal/preprocess/preprocess.go:183-243 | a longer text is cut near its first 11246 and before its last 3749 characters, at a sentence within 200 if there is one, with the joiner between |
| HeadTail.ExtractFits | internal/preprocess/preprocess.go:183-243 | for every text the result has at most 15000 characters |
| HeadTail.ExtractShape | internal/preprocess/preprocess.go:183-243 | a longer text keeps a non-empty start and a non-empty end of itself that do not overlap, losing only white space at the cuts |
| Scheduler.FetchEligibleArticles | internal/app/scheduler/scheduler.go:389-422 | the articles are those of the pages before the first empty one or the page limit, in order; an error is the first failing page; each page is asked for once |
| Scheduler.FetchesAre | internal/app/scheduler/scheduler.go:389-422 | the page requests are, one after the other, for the offsets that are multiples of the page size |
| Scheduler.CollectedGrows | internal/app/scheduler/scheduler.go:389-422 | more pages only add articles, at the end |
| Scheduler.ChunkIDs | internal/app/scheduler/scheduler.go:772-788 | the chunks concatenate to the numbers, all but the last are full, none is empty |
| Scheduler.BuildBatchArticles | internal/app/scheduler/scheduler.go:427-460 | succeeds exactly if every number has a last fetched article that converts, and gives those articles converted, in order |
| Scheduler.ConvertedInput | internal/app/scheduler/scheduler.go:427-460 | what the extractor is asked for a fetched article is its own number, title, link, source and time, and the cleaned text of its own contents |
| Scheduler.ConvertibleIff | internal/app/scheduler/scheduler.go:427-475 | a number converts if and only if it is positive and the last fetched article that has it has a time that parses |
| Scheduler.PoolFitsBatch | internal/app/scheduler/adapters.go:28-30 | a pool started without a limit, as the scheduler starts it, returns one item per article in order, as the cycle relies on |
| Scheduler.RateLimitedIff | internal/app/scheduler/scheduler.go:310-318 | an error is a rate limit if and only if one of three phrases occurs in it, in any letter case |
| CycleCounters.CountBatchOutcomes | internal/app/scheduler/scheduler.go:478-518 | each counter grows by the number of items with its outcome and no error, those that failed before with or without an error, and all the rest as failed; causes are counted with multiplicity, and each keeps the articles of its first three places |
| CycleCounters.AccountingConserved | internal/app/scheduler/scheduler.go:201-288 | over any batches, whichever failed conversion or dispatch, the five counters add up to the articles |
| CycleCounters.RateLimitsFail | internal/app/scheduler/scheduler.go:250-308 | rate-limited articles are never more than failed ones |
| CycleCounters.RateLimitsAre | internal/app/scheduler/scheduler.go:250-308 | the rate limits are the items now stopped by one, and the articles of batches refused because of one |
| CycleCounters.CausesCount | internal/app/scheduler/scheduler.go:478-496 | the cause counts add up to the number of items with an error |
| SchedulerCycle.ThrottleLatches | internal/app/scheduler/scheduler.go:217-285 | once the rate limits have reached the threshold they stay there for the rest of the cycle |
| SchedulerCycle.ThrottleShape | internal/app/scheduler/scheduler.go:217-285 | up to and including the batch that reaches the threshold, the base concurrency and no cooldown in the log; for each later batch exactly one cooldown before its dispatch, and half the concurrency |
| SchedulerCycle.DispatchesInLog | internal/app/scheduler/scheduler.go:231-236 | dispatched batches and articles are those in the log of calls to the runner |
| SchedulerCycle.DispatchAll | internal/app/scheduler/scheduler.go:219-287 | the calls to the clock and the runner are, batch by batch, the cooldown if the rate limits so far reach the threshold and one dispatch of the converted last fetched articles if all convert, with the concurrency of the pace; each reply is the answer to that dispatch; a cancelled cooldown is the last call |
| SchedulerCycle.RunCycle | internal/app/scheduler/scheduler.go:201-288 | the source is what the pages before the first empty one or the limit hold, cut into full batches but for the last; every batch got the runner's answer to its articles; a completed cycle has every discovered article in exactly one counter, namely that of the outcome of its item, or failed if its batch got no reply; an error means a failing page or a cancelled cooldown, with the same done for the batches before; the log has the page requests and then the calls of the batches |
| Scheduler.ThrottledIsHalf | internal/app/scheduler/scheduler.go:290-295 | the throttled concurrency is half the base rounded up, at least one and never more than the base |
| BatchResponse.BuildSlots | internal/http/handler.go:379-408 | every number gets its slot in a buffer that is never outgrown, and the queues hold the places that wait for each article |
| BatchResponse.Dequeued | internal/http/handler.go:429-435 | the head of the queue of the next item's article is the place of exactly that item, with duplicate numbers too |
| BatchResponse.FillSlots | internal/http/handler.go:429-445 | item by item, the slot that asked for it is filled, with the error and status failed, or with the outcome in words and the result; no other slot changes |
| BatchResponse.SucceededAre | internal/http/handler.go:446-454 | succeeded is the number of items without an error whose outcome is newly extracted, done or pending; rejected numbers count as failed |
| BatchResponse.NothingPending | internal/http/handler.go:379-445 | no slot stays pending, and every slot is for the number asked |
| BatchResponse.ExtractRunBatch | internal/http/handler.go:379-454 | the runner is called once with the good articles, or not at all; a number is answered by the item of its own article exactly if it is positive and its last fetched article has a time that parses, else by the reason of its rejection; succeeded counts the good items, and succeeded plus failed is the total |
| InFlight.InFlightTracker.Snapshot | internal/observability/telemetry.go:79-93 | reports all stored counts and forgets exactly the zeros marked for a last report |
| InFlight.TrackerIs | internal/observability/telemetry.go:45-93 | after every trace the tracker stores the levels above zero and the zeros reached since the last snapshot, and marks exactly the stored zeros |
| InFlight.CountsTheDifference | internal/observability/telemetry.go:58-77 | the count is increments minus decrements if and only if decrements never outnumbered increments |
| InFlight.ZeroReportedOnce | internal/observability/telemetry.go:66-93 | a lasting fall to zero is reported by exactly the next snapshot |
| Dsn.SplitPostgresKVDSN | main.go:332-369 | the loop computes the specified split |
| Dsn.FailsIff | main.go:359-364 | it fails if and only if the text ends inside a quote or an escape |
| Dsn.PartsAreInk | main.go:332-369 | no part is empty, and together they are the text without its unquoted, unescaped blanks |
| Dsn.RoundTrip | main.go:332-369 | the parts joined by one blank split into the same parts |
| Backoff.NextBackoffDelay | internal/llm/client.go:243-260 | the doubling loop on 64-bit durations gives the specified delay, over the specified intermediate values |
| Backoff.BoundIff | internal/llm/client.go:243-257 | no intermediate value exceeds the larger of the initial delay and twice the maximum, for every attempt, if and only if the initial delay is not above the maximum |
| Backoff.BoundHolds | internal/llm/client.go:243-257 | an initial delay up to the maximum keeps that bound even where doubling wraps |
| Backoff.BoundExceeded | internal/llm/client.go:243-257 | a policy that exceeds the bound, with its values |
| Backoff.ClosedFormIff | internal/llm/client.go:243-260 | the delay before jitter is min(max, initial * 2^(attempt-1)) for every attempt if and only if no doubling leaves the 64-bit range |
| Backoff.DefaultNeverWraps | internal/llm/client.go:67-76 | the settings of the client are inside that range |
| Backoff.DelayBoundsIff | internal/llm/client.go:243-260 | with jitter the delay lies between the base and the maximum, for every attempt and every draw, if and only if the maximum and a fifth of it do not leave the range together |
| Backoff.DelayBounds | internal/llm/client.go:256-260 | the same for one attempt and one draw |
| Backoff.BoundedJitter | internal/llm/client.go:320-333 | the jitter is non-negative and at most a fifth of the base |
| Backoff.DoWithRetry | internal/llm/client.go:142-163 | the calls are at most max(1, attempts) requests with the delay of each failure waited for in between; it goes on exactly after a retryable failure whose wait was not cancelled, and returns the last answer |
| Backoff.RequestsAre | internal/llm/client.go:142-163 | those calls hold one wait less than requests |

## Left out

- Concurrency as running code: callers, workers and the channel are a step system on values; goroutines, mutexes and the memory model are not modelled. `Repository` and `EventRepository` are the objects of the sequential program.
- Liveness of claims: a worker that stops after being granted leaves its row pending for good, as in the code; only safety is proved.
- `UpsertPending`: not part of the state interface and never called.
- Several clustering processes at once: reading, merging and writing an event are one step here.
- `ListEvents` and `GetEventByID`, which recompute the status while reading.
- Floating point: rounding of binary floats and NaN are not modelled, confidence is a real number.
- JSON encoding of list columns, SQL text, migrations, driver behaviour and timestamp precision: a row holds its decoded values. Invalid UTF-8 in texts.
- Error texts are fixed strings without the details the program adds; the classification of error texts into causes is a parameter (`Scheduler.World.cause`).
- HTTP transport, request parsing, middleware, logging, tracing and configuration; waits and clocks are parameters.
- `toModelArticleID` above the integer range: on 64-bit platforms the check cannot fail.
- `RunBatch` in batch.go: the same pool without persistence.
- Parsing of Retry-After headers and bodies: the delay of a failed request is a parameter of `Backoff.DoWithRetry`.
- The prompt, the extractor's own request, and the parsing of DSN keys after the split.
