# Quota, modelled and proved in Dafny

Quota keeps AI usage and remaining-quota numbers for one account on a relay and on the account's
devices. This project models the parts of it that carry state or arithmetic that is easy to get
wrong, and proves what those parts promise. `dafny verify dfyconfig.toml` checks all of it.

| modules | what they model |
|---|---|
| `LocalCalendar`, `AccountPeriods`, `PeriodDates`, `PeriodDays` | Periods on a local calendar: a range of local dates is answered from whole UTC days plus a few edge hours. A zone is any clock whose wall time stays within a bound of UTC and whose local date does not go back from one whole UTC hour to the next; days may be skipped and offsets may be any number of minutes. |
| `AgentLeaves`, `LeafBudget`, `AgentTree` | The agent tree of one period: a leaf per agent, provider and model, a budget on their number, the `other` fold, the sorted nested answer. The model catalog is two arbitrary functions of a row. |
| `SettingsDocument`, `SettingsQueue`, `SettingsProtocol`, `SettingsSafety`, `SettingsTheorems`, `SettingsProgress`, `SettingsStorage` | Account settings sync: any number of phones, each with a coalescing queue of un-acknowledged edits, against one relay whose PUT is a compare-and-set under `If-Match` (section 13.1.1 of RFC 9110). A run starts at any stored revision, with phones that may hold older ones, and is any sequence of steps; a step is one uninterrupted stretch of code, and the relay's read of the record and its conditional write are two steps. |
| `HistoryWire`, `HistoryBody`, `HistoryChunker`, `HistoryWatermarks`, `HistoryTheorems`, `HistoryConfirmed`, `HistoryNextPass`, `HistoryPasses` | The quota-history upload: the greedy chunker with its running byte count and binary-search fallback, the watermarks that answers to an upload move, what the next pass looks at, and what one pass means for those after it. |
| `SampleJournal`, `SampleTheorems`, `SamplePositions` | The phone's change-only journal of quota readings, against the log that keeps every reading. |
| `ProviderBackoff`, `BackoffTheorems` | The per-session 429 backoff with its wait, its manual bypass and its day-long floor, over whole traces. |
| `CanonicalJson`, `JsonReading`, `JsonTheorems`, `JsonText`, `Base64Url`, `Base64Bits`, `DecimalText` | Exact text: canonical JSON over UTF-16 code units, unpadded base64url (section 5 of RFC 4648), byte comparison, revision tags, and a decimal rate times 11/10. |
| `Prelude`, `Sorting` | Shared vocabulary: optional values, filters, the stable library sort, text order by code unit. |

Code that updates state in place is a method, with its loops, or a class, and is proved equal to a
function of its inputs or old state. The theorems are about those functions.

## What is proved, area by area

* **Periods.** `startOfLocalHour` ends for every bounded clock and finds the least hour at or after a
  date, whatever its guess was. The rows selected for today, the last seven and the last thirty days
  add up to exactly the hours whose own local date is one of those, each once, for every hourly usage
  and every measure of it, although edges are shared between periods. No more than four edge ranges
  are read. The windows of `days[]` tile the period, each hour is in the window of its own local date,
  and the two totals the period route reads from different tables are one number.
* **Agent tree.** Past the budget of 200 the answer has exactly 200 leaves, or one per agent and
  provider when those alone are more. The leaves kept are the longest prefix by rank that fits. For
  any choice of agents and providers, the totals of the tree add up to the totals of the period's own
  rows. When the period's own totals are safe integers nothing in the tree fails.
* **Settings.** In every interleaving an accepted PUT changes only the targets its sender's snapshot
  names, the whole history is the accepted snapshots applied one after another, an edit leaves a queue
  only by being replaced or by being stored, and what a phone shows is always its un-acknowledged
  edits folded onto a document the relay really stored. A push from any reachable state sends the queue,
  is retried once when the held document is old, and, served with nothing written in between, stores
  what every queued edit wants.
* **History upload.** The running count is the measured size of the open chunk, so the fallback splits
  nothing again; no other order-preserving split into acceptable chunks is shorter; no point is lost.
  From the chunker through the range filter and a partly answered upload, a sample that waits is looked at
  again by the next pass, except when hour buckets return off the hour, below. A watermark is exactly the
  newest bucket confirmed so far, and a series is judged lost exactly when an answer contradicts what
  the relay must still hold. After a failed upload nothing is sent for a minute, and once the account is
  full nothing at all.
* **Journal.** A pass files every window that says when it resets, in order. The journal shows the value
  of the full log at every instant from a reset's first kept sample on.
* **Backoff.** Whether a read is let through is a function of the history alone; the spacing
  guarantees follow from that, and so does that no session is held for ever.
* **Text.** One canonical JSON text means one value up to key order and members without a value, and
  stands for it as JSON is read, with its keys in order; base64url decoding undoes encoding; scaling
  by 11/10 is exact and canonical.

## Where the code and a promise differ

* **A watermark can pass a sample that was not answered.** A window of at most a day has 15-minute
  buckets, a longer one has hour buckets. When the next pass goes from the former to the latter, the
  watermark may lie inside an hour, and a sample of that hour whose 15-minute bucket was never answered
  then starts before it. Hour buckets return when the phone's own window is (or has become) longer than a
  day and no shorter duration is adopted any more, because the last answer to name another duration named
  a longer one (QuotaHistoryCoordinator.swift:707-712), or because none was adopted when the window grew
  (QuotaHistoryCoordinator.swift:475-490). `HistoryNextPass.SamplesKeptExactly` states it both ways: a
  pass keeps every such sample exactly unless hour buckets return and its watermark starts no hour.
  `HistoryTheorems.AdoptionEndSkipsSample` is a pass that loses one.
* **A late reading may not be shown at its instant.** The journal compares a reading with the newest one
  of its reset, whatever its instant. `SampleTheorems.CurveShowsReading`, and `JournalShowsReading` for
  the journal, say exactly when the curve has the reading's value at its instant: unless the reading
  repeats the newest value and the curve did not have that value then. `LateRepeatIsLost` is an example.
* **A pass may leave a window showing nothing it read.** A repeat is not written, and its only writing may
  age out in the same pass. `SamplePositions.RecordShowsReading` says exactly when a reading in time is
  shown after its pass: unless it repeats a value whose writing is older than the retention.
  `UnmovedValueAgesOut` is an example, and `NextReadingIsWritten` proves that the next reading of that
  reset is written again.

## Model

| member | source | states |
|---|---|---|
| LocalCalendar.StartOfLocalHour | apps/relay/src/local-periods.ts:156-163 | Terminates for every bounded clock, and for one whose date never goes back returns the least UTC hour read as the date or later, independent of the guess |
| LocalCalendar.StartExists | apps/relay/src/local-periods.ts:145-163 | Every date has such a least hour, also a date the zone skips |
| LocalCalendar.StartSplits | apps/relay/src/local-periods.ts:145-163 | An hour is read as the date or later exactly from that start on |
| LocalCalendar.StartsAdvance | apps/relay/src/local-periods.ts:112-130 | Starts are monotone in the date |
| LocalCalendar.PlanLocalDateRange | apps/relay/src/local-periods.ts:58-91 | Plans the whole UTC days and the cut hours between the starts of the first date and of the date after the last |
| LocalCalendar.PlanCoversHours | apps/relay/src/local-periods.ts:58-91 | For every hourly usage, the days and edges of a plan sum to every hour of its range, each once |
| PeriodDates.PlannedDaysAreWhole | apps/relay/src/local-periods.ts:58-91 | A UTC day is planned exactly when all its 24 hours lie in the range |
| PeriodDates.PlannedEdgesAreTheRest | apps/relay/src/local-periods.ts:58-91 | Every other hour of the range is in exactly one edge, and an edge holds no other hour and is never empty |
| LocalCalendar.PlanLocalDayWindows | apps/relay/src/local-periods.ts:93-110 | One window per local date, from that date's start to the next date's |
| LocalCalendar.WindowsTile | apps/relay/src/local-periods.ts:93-110 | The windows of a range sum to exactly the hours of the range's plan |
| LocalCalendar.WindowHolds | apps/relay/src/local-periods.ts:93-110 | An hour lies in a window exactly when the window names its own local date |
| PeriodDates.FixedOffsetDates | apps/relay/src/local-periods.ts:145-163 | In a zone a fixed number of minutes from UTC, which date an hour reads as and which hour a date starts at, in numbers |
| AccountPeriods.PlanLocalPeriods | apps/relay/src/local-periods.ts:112-130 | The three periods' windows, and their edges with a shared edge listed once under every period that needs it |
| AccountPeriods.PlannedEdges | apps/relay/src/local-periods.ts:112-130 | Under any weight, the shared edges tagged with a period weigh what that period's own edges weigh: sharing loses and repeats none |
| AccountPeriods.SelectPeriods | apps/relay/src/usage-summary.ts:239-259 | Each period gets the daily rows inside its window and the boundary rows tagged with it, by their position in the folded rows |
| AccountPeriods.SelectedSum | apps/relay/src/usage-summary.ts:239-259 | The selected positions are in range and sum to the window's daily rows plus the tagged boundary rows |
| AccountPeriods.PeriodIsItsHours | apps/relay/src/app.ts:1813-1837 | For every clock, usage and measure, a period's selected rows sum to exactly the hours from its first local date to tomorrow |
| PeriodDates.PeriodSumsItsDates | apps/relay/src/local-periods.ts:8-130 | The rows selected for today, the last seven and the last thirty days sum to exactly the hours whose own local date is today, today or one of the 6 before, and today or one of the 29 before |
| AccountPeriods.PeriodsNest | apps/relay/src/local-periods.ts:112-130 | Today starts inside the last seven days, and those inside the last thirty |
| PeriodDays.AtMostFourReads | apps/relay/src/state/d1-usage-state.ts:225-232 | The three periods ask for at most four distinct edge ranges |
| PeriodDays.BuildLocalPeriodDays | apps/relay/src/usage-summary.ts:207-231 | One bucket per local date that has rows and none for any other, dates strictly ascending, each holding exactly its date's rows in order |
| PeriodDays.DaysAddUpToPeriod | apps/relay/src/app.ts:1103-1143 | The buckets of `days[]` together sum to every hour of the requested range |
| PeriodDays.DaysMatchPeriod | apps/relay/src/app.ts:1103-1143 | The period's own total, from daily rows and edges, equals the sum of its `days[]`, from the local-day rows |
| AgentLeaves.SummaryTotals | apps/relay/src/usage-summary.ts:401-439 | Answers, each number a tally of its own field over the rows and the cache writes the sum of three, exactly when every index names a row and every number is a safe integer, and the limit error otherwise |
| AgentLeaves.FieldsAreTallied | apps/relay/src/usage-summary.ts:405-433 | The totals every theorem speaks of are, number by number, the tallies of the rows' fields |
| AgentLeaves.TotalIsInputAndOutput | apps/relay/src/usage-summary.ts:424-425 | The total a leaf ranks by and reports is its input and output tokens together |
| AgentLeaves.SumOfPermutation | apps/relay/src/usage-summary.ts:401-433 | Totals do not depend on the order rows are added in |
| AgentLeaves.CollectLeaves | apps/relay/src/usage-summary.ts:304-318 | One leaf per resolved name in order of first appearance, or the limit error exactly when an index names no row or a leaf's tokens pass the safe integers |
| AgentLeaves.LeavesHoldPeriod | apps/relay/src/usage-summary.ts:304-318 | Under any choice of branches the leaves hold exactly that choice's rows of the period, each as often as it was named |
| AgentLeaves.LeavesAreNamed | apps/relay/src/usage-summary.ts:304-318 | Leaf names are distinct, a leaf holds rows that resolve to its name only, and its token count is theirs |
| AgentLeaves.LeavesAreResolved | apps/relay/src/usage-summary.ts:306-315 | A leaf is called what each of its rows says: its agent, the provider the catalog gives, and the resolved model or else its own |
| AgentLeaves.LeavesRankByTokens | apps/relay/src/usage-summary.ts:317 | The tokens of a leaf are the tally of its rows' input plus that of their output |
| AgentLeaves.LeafTotalsFit | apps/relay/src/usage-summary.ts:435-439 | If the period's totals are safe integers, so are those of every leaf of leaves that hold its rows |
| LeafBudget.RankOrders | apps/relay/src/usage-summary.ts:353-359 | The rank (tokens descending, then agent, provider, model) is a total preorder, so the sort is well defined |
| LeafBudget.TailBranches | apps/relay/src/usage-summary.ts:362-368 | At every position, the number of distinct branches from there on |
| LeafBudget.FindSplit | apps/relay/src/usage-summary.ts:369-375 | The last position within the budget whose split fits it, or zero |
| LeafBudget.FoldTail | apps/relay/src/usage-summary.ts:376-393 | One `other` leaf per branch with all its rows and tokens, or the limit error exactly when one overflows |
| LeafBudget.BoundLeaves | apps/relay/src/usage-summary.ts:351-395 | Keeps leaves within the budget as they are, and otherwise the ranked prefix and the folds |
| LeafBudget.LeavesRise | apps/relay/src/usage-summary.ts:360-375 | Moving the split by one position adds one leaf or none |
| LeafBudget.BoundedCount | apps/relay/src/usage-summary.ts:351-395 | Past the budget exactly 200 leaves come out when the branches fit it, and one per branch when they do not |
| LeafBudget.KeptIsLongestPrefix | apps/relay/src/usage-summary.ts:351-394 | What is kept is the longest ranked prefix that fits 200: every longer one does not fit, no folded leaf has more tokens than a kept one, and among as many tokens none has an earlier name |
| LeafBudget.BoundingConserves | apps/relay/src/usage-summary.ts:376-394 | Bounding moves no row to another branch and loses or repeats none |
| LeafBudget.BoundedCounts | apps/relay/src/usage-summary.ts:376-394 | After bounding each leaf still counts exactly its own rows' tokens |
| AgentTree.GroupLeaves | apps/relay/src/usage-summary.ts:320-330 | Files each leaf under its agent and provider, in order of first appearance |
| AgentTree.BuildAgentTree | apps/relay/src/usage-summary.ts:298-349 | Answers the grouping of the bounded leaves exactly when every index names a row and every sum before and after the fold is a safe integer, and the limit error otherwise |
| AgentTree.TreeFits | apps/relay/src/usage-summary.ts:298-349 | If the period's totals are safe integers, no addition for a leaf overflows, before or after bounding |
| AgentTree.TreeIsItsLeaves | apps/relay/src/usage-summary.ts:320-349 | The tree's leaves are the bounded leaves, each once, under their own names and with their own totals |
| AgentTree.TreeSize | apps/relay/src/usage-summary.ts:298-349 | The tree has as many leaves as the period when they fit the budget, and otherwise the budget or the number of branches, whichever is more |
| AgentTree.TreeAddsUp | apps/relay/src/usage-summary.ts:298-349 | For any choice of agents and providers the tree's totals add up to the period's own rows under them |
| AgentTree.TreeAscends | apps/relay/src/usage-summary.ts:332-348 | Agents, and providers under each, appear once and in text order; models are in text order |
| SettingsDocument.FoldingSays | apps/ios/Sources/AccountSettingsSync.swift:293-298 | At each target a fold says what the last edit naming it wants and otherwise what the base said; it keeps the revision and names the history switch exactly when an edit does |
| SettingsDocument.FoldingByLastWord | apps/ios/Sources/AccountSettingsSync.swift:293-298 | Lists with the same last word at every target fold alike onto every document |
| SettingsDocument.FoldingInAnyOrder | apps/ios/Sources/AccountSettingsSync.swift:293-298 | Edits of distinct targets fold alike in any order |
| SettingsDocument.FoldingAppend | apps/ios/Sources/AccountSettingsSync.swift:293-298 | Folding one list after another is folding their concatenation |
| SettingsDocument.WireIsStable | packages/apple-shared/Sources/QuotaAlerts/AccountSettings.swift:104-106 | Threshold lists as stored and as sent are stable under the wire rule |
| SettingsDocument.WireIsLargestTwo | packages/apple-shared/Sources/QuotaAlerts/AccountSettings.swift:104-106 | A stored threshold list is the two largest distinct values between 1 and 99, largest first, or 20 and 10 when there is none |
| SettingsQueue.AccountSettingsSync.Apply | apps/ios/Sources/AccountSettingsSync.swift:76-86 | An edit is applied locally at once and, when signed in, queued in place of the earlier edit of its slot |
| SettingsQueue.AccountSettingsSync.RememberPending | apps/ios/Sources/AccountSettingsSync.swift:342-349 | Replaces the entry of the same account and target by the new one at the end, with the next id |
| SettingsQueue.AccountSettingsSync.RemovePending | apps/ios/Sources/AccountSettingsSync.swift:351-354 | Removes exactly the entries with the given ids |
| SettingsQueue.AccountSettingsSync.TakeWritten | apps/ios/Sources/AccountSettingsSync.swift:264-271 | An acknowledgement removes the snapshot and shows what is left folded onto the stored document |
| SettingsQueue.AccountSettingsSync.TakeConflict | apps/ios/Sources/AccountSettingsSync.swift:272-286 | A 412 drops nothing and shows the queue folded onto the current document |
| SettingsQueue.AccountSettingsSync.TakeFetched | apps/ios/Sources/AccountSettingsSync.swift:149-165 | A refresh after first sync shows the queue folded onto the fetched document, or adopts a new revision when nothing is queued |
| SettingsQueue.AdoptShows | apps/ios/Sources/AccountSettingsSync.swift:319-323 | Adopting a document makes the local values say exactly what it says, and leaves the device's own switch |
| SettingsQueue.EditShows | apps/ios/Sources/AccountSettingsSync.swift:300-317 | Applying an edit locally shows what folding it onto the shown document says |
| SettingsQueue.CoalescedFolds | apps/ios/Sources/AccountSettingsSync.swift:342-349 | The coalesced queue folds onto any document as all the edits it came from |
| SettingsQueue.CoalescedFilter | apps/ios/Sources/AccountSettingsSync.swift:342-354 | Coalescing commutes with dropping acknowledged edits |
| SettingsSafety.StepKeeps | apps/ios/Sources/AccountSettingsSync.swift:131-290 | Every step of every phone and of the relay keeps the protocol's invariant; that the steps bring anything about is SettingsProgress |
| SettingsSafety.RunKeeps | apps/relay/src/app.ts:1551-1591 | The invariant holds in every reachable state, for any number of phones, from any stored revision |
| SettingsSafety.AcknowledgementMatches | apps/ios/Sources/AccountSettingsSync.swift:264-271 | Removing a snapshot by id leaves the coalescing of exactly the edits it did not acknowledge, with edits made meanwhile |
| SettingsSafety.HeaderNamesBase | apps/ios/Sources/AccountSettingsSync.swift:362-365 | The `If-Match` header a phone sends is read as its base revision, or refused when that is no safe integer |
| SettingsSafety.AnswerGetGenuine | packages/apple-client/Sources/QuotaAccount/AccountClient.swift:340-363 | A fetch, also one answered 304, hands the phone the current document with a true tag |
| SettingsSafety.StoredIsFold | apps/relay/src/app.ts:1566-1582 | What the handler stores, with an omitted history left as it was read, is the snapshot folded onto its base |
| SettingsSafety.CommitKeeps | apps/relay/src/state/d1-account-state.ts:1224-1270 | The compare-and-set keeps the invariant and only adds revisions |
| SettingsTheorems.AcceptedPut | apps/relay/src/app.ts:1551-1591 | In every interleaving a step stores nothing or one revision, which differs from the one it replaced only in the targets of the sender's snapshot, where it says what the snapshot wants |
| SettingsTheorems.AcceptedEditIsStored | packages/apple-shared/Sources/QuotaAlerts/AccountSettings.swift:80-106 | Every edit of an accepted snapshot is in the new revision: flags and amounts in range as they are, an amount out of range as none, thresholds as their two largest |
| SettingsTheorems.HistoryIsSerial | apps/relay/src/app.ts:1551-1591 | Since the run began every stored revision is the one before it with one accepted snapshot applied, and no earlier revision changes |
| SettingsTheorems.ValueSurvives | apps/ios/Sources/AccountSettingsSync.swift:251-290 | A stored value stays until a later accepted snapshot names its target, from any revision the run began at |
| SettingsTheorems.EditLeavesQueue | apps/ios/Sources/AccountSettingsSync.swift:265-286 | Over whole runs a queued edit leaves only because a later edit of its account and target replaced it or because the relay stored a document containing it |
| SettingsTheorems.PhoneShowsItsEdits | apps/ios/Sources/AccountSettingsSync.swift:151-165 | At every moment a phone shows all its un-acknowledged edits folded onto a document the relay stored |
| SettingsTheorems.SettledPhone | apps/ios/Sources/AccountSettingsSync.swift:131-165 | With nothing queued a phone shows the document it holds, which the relay stored |
| SettingsTheorems.SnapshotSays | apps/ios/Sources/AccountSettingsSync.swift:210-249 | In a snapshot every edit is the last word on its target |
| SettingsTheorems.NotModifiedIsCurrent | packages/apple-client/Sources/QuotaAccount/AccountClient.swift:351-361 | In every reachable state a 304 stands for the current document |
| SettingsProgress.HeldTagIsNotModified | apps/relay/src/app.ts:1519-1522 | In every reachable state a fetch is answered 304 exactly when the phone holds the current document with its tag |
| SettingsProgress.PushIsStored | apps/ios/Sources/AccountSettingsSync.swift:210-271 | From any reachable state with a queue and the current document held, a push sends one PUT; checked, committed and taken, it adds one revision that says what every queued edit wants, and the queue is empty |
| SettingsProgress.StalePushIsStored | apps/ios/Sources/AccountSettingsSync.swift:251-290 | With an old document held, the first PUT is refused, exactly one more PUT of the same snapshot goes out onto the current document, and it is stored when nothing is written in between |
| SettingsProgress.FirstConflictRetries | apps/ios/Sources/AccountSettingsSync.swift:272-286 | Taking a first 412 sends the snapshot once more, onto the answered document and under its tag |
| SettingsProgress.SecondConflictStops | apps/ios/Sources/AccountSettingsSync.swift:272-286 | Taking a second 412 sends nothing, and keeps the queue |
| SettingsProgress.FirstPushIsStored | apps/ios/Sources/AccountSettingsSync.swift:210-233 | With no document held, the push fetches the current one first and then stores its queue the same way |
| SettingsProgress.RefreshShowsCurrent | apps/ios/Sources/AccountSettingsSync.swift:131-165 | A refresh the relay serves leaves the phone holding the current document and showing its queue folded onto it, and sends the queue when there is one |
| SettingsProgress.EditIsQueuedAndShown | apps/ios/Sources/AccountSettingsSync.swift:76-86 | An edit is at once the newest of the queue and what the phone shows at its target, whatever the phone is waiting for |
| SettingsStorage.RelaunchKeepsQueue | apps/ios/Sources/AccountSettingsSync.swift:411-472 | Saving and loading gives back the queue, with a next id above every id in it |
| SettingsStorage.SecondLaunchAgrees | apps/ios/Sources/AccountSettingsSync.swift:426-472 | A second launch reads what the first one read, also after the one-record key was migrated |
| SettingsStorage.SingleRecordIsKept | apps/ios/Sources/AccountSettingsSync.swift:436-444 | A record of the key that held one is the whole queue, as edit 1, of this launch and the next |
| SettingsStorage.UnreadableIsSkipped | apps/ios/Sources/AccountSettingsSync.swift:426-433 | A stored record that names no edit is left out, and those around it are kept in order |
| HistoryWire.EncodedGrows | apps/ios/Sources/QuotaHistoryCoordinator.swift:37-61 | What the loop adds for an item is exactly what the measured body grows by |
| HistoryBody.BodyMeasured | apps/ios/Sources/QuotaHistoryCoordinator.swift:119-143 | The sizes added up for an empty request, the headers, the points and the commas are the length of the whole body's text, a character being a byte of its encoding |
| HistoryBody.AcceptableBody | apps/ios/Sources/QuotaHistoryCoordinator.swift:31-65 | More than one point is acceptable exactly when the number of points and the length of the body's text are within their caps |
| HistoryBody.PointsAscend | apps/ios/Sources/QuotaHistoryCoordinator.swift:144-173 | Flattened points are the points built, by bucket, reset, provider, fingerprint and window |
| HistoryWire.GroupKeepsItems | apps/ios/Sources/QuotaHistoryCoordinator.swift:179-205 | Grouping into series keeps exactly the items, when a key has one duration |
| HistoryWire.GroupShape | apps/ios/Sources/QuotaHistoryCoordinator.swift:179-205 | A group has no empty series and a key exactly when an item has it |
| HistoryChunker.GroupItems | apps/ios/Sources/QuotaHistoryCoordinator.swift:179-205 | The grouping loop builds one series per key in order of first appearance |
| HistoryChunker.LongestFitting | apps/ios/Sources/QuotaHistoryCoordinator.swift:94-106 | The binary search finds the longest prefix under the limit that fits, or one item |
| HistoryChunker.SplitToFit | apps/ios/Sources/QuotaHistoryCoordinator.swift:84-110 | The pieces concatenate to the input, each is acceptable, an acceptable input is not split, and a split head is the longest that fits below the cap |
| HistoryChunker.GreedyRanges | apps/ios/Sources/QuotaHistoryCoordinator.swift:31-65 | The loop with its running count computes the greedy split by measured size |
| HistoryChunker.OverflowIsMeasured | apps/ios/Sources/QuotaHistoryCoordinator.swift:48-58 | The overflow test on the saturating running count agrees with the test on the measured body |
| HistoryChunker.Chunks | apps/ios/Sources/QuotaHistoryCoordinator.swift:14-75 | The chunks are the greedy split itself: the fallback never splits one of its ranges |
| HistoryChunker.GreedyIsFewest | apps/ios/Sources/QuotaHistoryCoordinator.swift:31-65 | No order-preserving split into acceptable bodies uses fewer bodies |
| HistoryChunker.ChunkingConserves | apps/ios/Sources/QuotaHistoryCoordinator.swift:14-75 | All chunks together carry exactly the points that came in, in nondecreasing bucket order, and each is within both caps or holds one point |
| HistoryWatermarks.QuotaHistoryCoordinator.Apply | apps/ios/Sources/QuotaHistoryCoordinator.swift:578-637 | Folds the answered chunks, and only those, into the account, and names the series judged lost; what the fold sets and which series are lost is HistoryConfirmed |
| HistoryWatermarks.QuotaHistoryCoordinator.PerformSync | apps/ios/Sources/QuotaHistoryCoordinator.swift:346-449 | Everything remembered after every outcome: off, full, backed off, nothing to send, cancelled, failed, done; a second upload happens exactly after a loss that leaves something to send, and never a third |
| HistoryTheorems.AnswersKeepShape | apps/ios/Sources/QuotaHistoryCoordinator.swift:578-703 | Whatever is answered, there stays one entry a series and one last-uploaded bucket a reset |
| HistoryTheorems.WatermarkNeverDecreases | apps/ios/Sources/QuotaHistoryCoordinator.swift:639-703 | A watermark and each reset's last-uploaded bucket never go back, unless the series is judged lost, and then it ends with neither |
| HistoryTheorems.TakeAllAtMost | apps/ios/Sources/QuotaHistoryCoordinator.swift:639-667 | A watermark does not pass every point that was answered and every bucket an answer named |
| HistoryConfirmed.WatermarkIsNewest | apps/ios/Sources/QuotaHistoryCoordinator.swift:639-667 | A series not lost ends with exactly the maximum of its old watermark and, over the answered chunks that send it, the bucket the answer names or else the latest one sent |
| HistoryConfirmed.OneNewest | apps/ios/Sources/QuotaHistoryCoordinator.swift:655-667 | That condition leaves one possible watermark |
| HistoryConfirmed.LastUploadedIsLatest | apps/ios/Sources/QuotaHistoryCoordinator.swift:679-694 | It ends with one last-uploaded bucket for each reset: the last of the latest among those it had and those the answered chunks sent |
| HistoryConfirmed.LostExactly | packages/apple-shared/Sources/QuotaPresentation/QuotaHistorySync.swift:107-168 | A judged series is lost exactly when it sends points and the answer leaves it out, or names an oldest bucket later than the recorded one while Relay must hold that, or else than a watermark Relay must hold that everything sent is past |
| HistoryConfirmed.LeftOutIsLost | apps/ios/Sources/QuotaHistoryCoordinator.swift:578-637 | Whatever is remembered, a judged series with points in a chunk whose answer leaves it out ends lost |
| HistoryConfirmed.RecordedAfterSeries | packages/apple-shared/Sources/QuotaPresentation/QuotaHistorySync.swift:170-184 | The oldest bucket recorded stays while Relay must hold it and nothing sent is earlier, and is else the earliest one sent |
| HistoryPasses.UploadsExactly | apps/ios/Sources/QuotaHistoryCoordinator.swift:346-405 | A pass uploads exactly when the switch is on, the account is not full, the last failure is a minute old and there is something to send, and never more than twice |
| HistoryPasses.SecondUploadFollowsLoss | apps/ios/Sources/QuotaHistoryCoordinator.swift:423-449 | A second upload follows exactly a first one that went through and lost a series, when there is something to send |
| HistoryPasses.FullStopsForGood | apps/ios/Sources/QuotaHistoryCoordinator.swift:443-447 | After an answer that the account is full no later pass of the process uploads |
| HistoryPasses.FailureBacksOff | apps/ios/Sources/QuotaHistoryCoordinator.swift:370-374 | After a failed upload no pass that starts within a minute uploads, however many there are |
| HistoryPasses.AnswersAreKept | apps/ios/Sources/QuotaHistoryCoordinator.swift:406-442 | What was answered before an upload was cancelled or failed is remembered, and the first backfill is not over |
| HistoryPasses.OffForgets | apps/ios/Sources/QuotaHistoryCoordinator.swift:357-369 | Off, here or on the relay, forgets every series, and the next pass backfills |
| HistoryPasses.BackfillEnds | apps/ios/Sources/QuotaHistoryCoordinator.swift:394-449 | A pass with nothing to send, or whose one upload went through, ends the backfill and the back-off |
| HistoryTheorems.UnansweredSampleStays | apps/ios/Sources/QuotaHistoryCoordinator.swift:490-503 | A sample no later than everything answered passes the next filter, if buckets did not grow or the watermark starts one of the new size |
| HistoryNextPass.AdoptedAfterPass | apps/ios/Sources/QuotaHistoryCoordinator.swift:639-712 | The duration a series not lost follows after a pass: the one the last differing answer named, when shorter than the one sent, else none, else what it was |
| HistoryNextPass.AdoptedAfterSeries | apps/ios/Sources/QuotaHistoryCoordinator.swift:605-636 | Lost or not, a series an answer is taken for follows a shorter duration the answer names, drops one when it names a longer, and keeps it else |
| HistoryNextPass.BucketsGrow | apps/ios/Sources/QuotaHistoryCoordinator.swift:475-490 | The next pass has larger buckets exactly when it collects more than a day, this one declared at most a day, and no duration of at most a day is adopted any more |
| HistoryNextPass.PassKeepsSamples | apps/ios/Sources/QuotaHistoryCoordinator.swift:490-503 | For any duration the next pass declares, the watermark a pass leaves lets every sample through that it did not answer past, exactly when buckets do not grow or the watermark starts one of the new size |
| HistoryNextPass.SamplesKeptExactly | apps/ios/Sources/QuotaHistoryCoordinator.swift:475-503 | The same in terms of the durations collected, the one adopted and the answers |
| HistoryNextPass.LostSeriesIsSentAgain | apps/ios/Sources/QuotaHistoryCoordinator.swift:490-503 | Every sample of a series judged lost passes the next filter |
| HistoryNextPass.UnansweredSampleIsSentAgain | apps/ios/Sources/QuotaHistoryCoordinator.swift:490-503 | One sample, whatever its series' fate and the next collected duration, passes the next filter unless hour buckets return off the hour |
| HistoryNextPass.SentDeclares | apps/ios/Sources/QuotaHistoryCoordinator.swift:508-530 | What is sent for a series declares the duration it was built with |
| HistoryNextPass.WaitingSampleIsSentAgain | apps/ios/Sources/QuotaHistoryCoordinator.swift:346-449 | End to end over chunker, range filter and a prefix of answers: a sample whose bucket waits in a chunk not answered passes the next filter, unless hour buckets return off the hour |
| HistoryTheorems.AdoptionEndSkipsSample | apps/ios/Sources/QuotaHistoryCoordinator.swift:707-712 | A concrete pass after which a sample that was not answered is behind the watermark |
| HistoryTheorems.ChunksInOrder | apps/ios/Sources/QuotaHistoryCoordinator.swift:144-173 | The chunker's chunks are in bucket order across chunks |
| HistoryTheorems.SendableOrder | apps/ios/Sources/QuotaHistoryCoordinator.swift:533-576 | Holding back out-of-range points keeps the chunks in order |
| HistoryConfirmed.SentExactly | packages/apple-shared/Sources/QuotaPresentation/QuotaHistorySync.swift:87-105 | What is sent is exactly the points built that are neither swept nor more than a bucket ahead, in the same order |
| HistoryTheorems.WaitingIsNotBehind | apps/ios/Sources/QuotaHistoryCoordinator.swift:578-600 | A bucket that waits in a chunk that was not answered is not before any answered point |
| HistoryTheorems.AheadIsNotBehind | packages/apple-shared/Sources/QuotaPresentation/QuotaHistorySync.swift:87-105 | Nor is one that was held back for lying ahead of the clock |
| SampleJournal.LocalQuotaSamples.Samples | apps/ios/Sources/LocalQuotaSamples.swift:40-44 | Answers the samples of the one entry of that subscription and window, and none when there is no entry |
| SampleJournal.LocalQuotaSamples.Record | apps/ios/Sources/LocalQuotaSamples.swift:51-87 | Files the readings of a pass in order, each unless it repeats the newest one of its reset, and drops what aged out; that none is left out is PassFilesEveryWindow |
| SamplePositions.PassReadsEveryWindow | apps/ios/Sources/LocalQuotaSamples.swift:51-55 | The readings of a pass are those of its windows that say when they reset, snapshot by snapshot and window by window |
| SamplePositions.PassFilesEveryWindow | apps/ios/Sources/LocalQuotaSamples.swift:51-87 | A pass files every such window, each once and in that order, and then prunes |
| SamplePositions.FilingHolds | apps/ios/Sources/LocalQuotaSamples.swift:72-83 | A written reading is added and replaces only a sample of its own reset and instant |
| SamplePositions.SampleStays | apps/ios/Sources/LocalQuotaSamples.swift:51-95 | A pass keeps every sample of the last thirty days that it does not read anew at the same instant |
| SamplePositions.EntriesWereRead | apps/ios/Sources/LocalQuotaSamples.swift:56-71 | Every entry of a run's journal is of a subscription, window and provider that some pass read |
| SampleJournal.LocalQuotaSamples.RecordReading | apps/ios/Sources/LocalQuotaSamples.swift:56-83 | One reading: a repeat changes nothing, any other replaces the one of its instant and keeps time order |
| SampleJournal.LocalQuotaSamples.Prune | apps/ios/Sources/LocalQuotaSamples.swift:89-95 | Drops samples before the horizon and entries left empty |
| SampleTheorems.RunShape | apps/ios/Sources/LocalQuotaSamples.swift:51-95 | After every pass of every run: one entry per subscription and window, none empty, oldest first, one reading per reset and instant, none older than thirty days |
| SampleTheorems.PassKeepsShape | apps/ios/Sources/LocalQuotaSamples.swift:51-95 | The same for one pass from any well-shaped journal, whatever the clocks do |
| SampleTheorems.FiledOf | apps/ios/Sources/LocalQuotaSamples.swift:72-83 | Filing a reading changes the samples of its own reset only |
| SampleTheorems.JournalFollowsLog | apps/ios/Sources/LocalQuotaSamples.swift:51-95 | Over every run in which a reset's readings do not go back in time, the journal gives the full log's value at every instant from its first kept sample on |
| SampleTheorems.ReadingIsShown | apps/ios/Sources/LocalQuotaSamples.swift:72-83 | A reading that is not out of order is what its window shows from its instant on, whether it was written or skipped as a repeat |
| SampleTheorems.PrunedSamples | apps/ios/Sources/LocalQuotaSamples.swift:89-95 | Pruning leaves every window exactly its samples inside the retention |
| SampleTheorems.CurveShowsReading | apps/ios/Sources/LocalQuotaSamples.swift:72-83 | For any entry and reading, in order or not: the curve has the reading's value at its instant exactly unless the reading repeats the newest value and the curve did not have that value then |
| SampleTheorems.JournalShowsReading | apps/ios/Sources/LocalQuotaSamples.swift:51-87 | The same for the journal and the reading's own window |
| SampleTheorems.PassShowsReading | apps/ios/Sources/LocalQuotaSamples.swift:51-95 | After pruning, a reading that is neither late nor too old is shown exactly unless it repeats a value whose writing is older than the retention |
| SamplePositions.RecordShowsReading | apps/ios/Sources/LocalQuotaSamples.swift:51-95 | For any window of any snapshot of a pass whose reset no later window of the pass reads: a reading neither late nor too old is shown when the pass is over exactly unless it repeats a value whose writing is older than the retention |
| SampleTheorems.NextReadingIsWritten | apps/ios/Sources/LocalQuotaSamples.swift:51-87 | Where it is not shown nothing of its reset is left, and the next reading of it is written |
| SampleTheorems.UnmovedValueAgesOut | apps/ios/Sources/LocalQuotaSamples.swift:73-86 | A pass that shows nothing of a value it just read: the witness |
| SampleTheorems.LateRepeatIsLost | apps/ios/Sources/LocalQuotaSamples.swift:73-75 | A late reading the curve does not show: the witness |
| ProviderBackoff.ProviderBackoff.Admits | apps/ios/Sources/ProviderBackoff.swift:43-53 | The answer and the whole new state of an ask: floor expiry, wait, bypass, floor |
| ProviderBackoff.ProviderBackoff.AdmitsPastBackoff | apps/ios/Sources/ProviderBackoff.swift:55-66 | The answer and the new state of the wait's half of an ask |
| ProviderBackoff.ProviderBackoff.RateLimited | apps/ios/Sources/ProviderBackoff.swift:69-87 | The new wait, with the bypass time carried over, and the raised floor |
| ProviderBackoff.ProviderBackoff.Answered | apps/ios/Sources/ProviderBackoff.swift:91-93 | Ends the wait and leaves the floor |
| BackoffTheorems.HistoryDecides | apps/ios/Sources/ProviderBackoff.swift:41-66 | An automatic read is let through exactly when no unanswered 429 still asks to wait and, for a day after a 429, nothing was read in five minutes; a manual one exactly when there is no wait or no bypass in the last minute |
| BackoffTheorems.WaitsBounded | apps/ios/Sources/ProviderBackoff.swift:69-87 | Every wait is 1 to 3600 seconds from the 429 that started it |
| BackoffTheorems.DelayDoubles | apps/ios/Sources/ProviderBackoff.swift:69-80 | The n-th straight 429 without a Retry-After waits min(300 · 2^(n-1), 1800) seconds |
| BackoffTheorems.NextWaitDoubles | apps/ios/Sources/ProviderBackoff.swift:69-87 | After any trace, a 429 without a Retry-After waits 300 seconds when no wait is pending, and else twice that wait, at least 300 and at most 1800 |
| BackoffTheorems.RetryAfterIsHonoured | apps/ios/Sources/ProviderBackoff.swift:69-73 | A positive Retry-After is waited out in full up to an hour, and no automatic read is let through inside it |
| BackoffTheorems.AutomaticReadsApart | apps/ios/Sources/ProviderBackoff.swift:43-53 | For a day after a 429 an automatic read comes at least 300 seconds after any earlier read or 429 of its session |
| BackoffTheorems.AutomaticReadsWait | apps/ios/Sources/ProviderBackoff.swift:55-57 | An automatic read after an unanswered 429 comes only when its wait is over |
| BackoffTheorems.BypassesApart | apps/ios/Sources/ProviderBackoff.swift:55-66 | Reads past a wait with no reading between are at least 60 seconds apart, also across a new 429 |
| BackoffTheorems.QuietSessionIsRead | apps/ios/Sources/ProviderBackoff.swift:43-66 | An hour after anything a session did any read of it is let through, and after a minute any manual one |
| BackoffTheorems.AnsweredSessionIsRead | apps/ios/Sources/ProviderBackoff.swift:89-93 | Once a session answers, a manual read of it is let through |
| BackoffTheorems.UnlimitedSessionIsRead | apps/ios/Sources/ProviderBackoff.swift:43-66 | A session that never answered 429 is read whenever it is asked |
| BackoffTheorems.StepTouchesOneKey | apps/ios/Sources/ProviderBackoff.swift:43-93 | No event of one session changes another's |
| CanonicalJson.PrintsWhenPrintable | apps/relay/src/security.ts:87-106 | The printer throws exactly when a value it refuses can be reached; a member without a value is no obstacle |
| JsonReading.QuotedReads | apps/relay/src/security.ts:88-90 | A quoted string, with every escape and lone surrogate, can be read off the front of a text in one way only |
| JsonReading.TextReads | apps/relay/src/security.ts:87-106 | A canonical text can be read off the front of any delimited text in one way only |
| JsonTheorems.CanonicalMeansSame | apps/relay/src/security.ts:87-106 | Two values get one text exactly when they are equal up to key order and members without a value |
| JsonTheorems.SamePrintsAlike | apps/relay/src/security.ts:97-104 | Values that differ only so print alike or throw alike |
| JsonTheorems.TextsDoNotExtend | apps/relay/src/security.ts:87-106 | No canonical text goes on, past a delimiter, as another |
| JsonText.ObjectText | apps/relay/src/security.ts:97-104 | An object's text is its members that have a value, each key once and strictly ascending by code units, between braces and commas, each as its quoted key, a colon and its own canonical text |
| JsonText.ArrayText | apps/relay/src/security.ts:94-96 | An array's text is its items' canonical texts in order, between brackets and commas |
| JsonText.ScalarText | apps/relay/src/security.ts:88-93 | The literals are spelled as in JSON, a number is its own text, and a string reads back as itself |
| JsonText.UnquoteUndoesQuote | apps/relay/src/security.ts:88-90 | Reading a quoted string by the escapes of section 7 of RFC 8259 gives the string back, for every string |
| JsonText.PlainIsItself | apps/relay/src/security.ts:88-90 | A string without controls, quotes, backslashes and surrogates stands between its quotes as it is |
| Base64Url.BytesToBase64Url | apps/relay/src/security.ts:79-85 | The loop and the replacements give the unpadded URL text of the bytes |
| Base64Url.DecodeBase64Url | apps/relay/src/security.ts:64-73 | Fills a new array with the decoded bytes, or fails where the platform's decoder throws |
| Base64Url.DecodeUndoesEncode | apps/relay/src/security.ts:64-85 | For all bytes, decoding undoes encoding; the text is unpadded, in the URL alphabet, and has its exact length |
| Base64Url.CleanTextDecodes | apps/relay/src/security.ts:64-73 | Which texts of the URL alphabet decode, and to what |
| Base64Bits.BlankTextDecodes | apps/relay/src/security.ts:64-73 | Which texts without padding decode, blanks and characters outside the alphabet included: blanks are skipped but count towards the padding added, so their number must be a multiple of four unless the whole length is |
| Base64Url.EncodeUndoesDecode | apps/relay/src/security.ts:64-85 | Encoding undoes decoding exactly on the texts whose last group leaves no bit over |
| Base64Bits.TextIsNumber | apps/relay/src/security.ts:79-85 | Every letter is a digit of the URL alphabet of RFC 4648, and each four are in base 64 the number their three bytes are in base 256 |
| Base64Url.ConstantTimeEqual | apps/relay/src/security.ts:45-54 | Accumulating the differences of two byte sequences answers exactly whether they are equal, also when lengths differ |
| DecimalText.IfMatchIsETag | apps/relay/src/app.ts:2287-2297 | A header is read as a revision exactly when it is the tag written for that revision and the revision is a safe integer |
| DecimalText.TagIsQuotedNumber | apps/relay/src/app.ts:2287-2289 | A tag is its revision's digits, without a leading zero, between quotes |
| DecimalText.HeaderIsMissingInvalidOrTag | apps/relay/src/app.ts:2291-2297 | A header is missing exactly when absent or empty, and a revision exactly when it is the tag of a safe one |
| DecimalText.ElevenTenths | apps/relay/src/pricing-catalog.ts:116-125 | The result denotes exactly 11/10 of the input and is canonical |
| DecimalText.CanonicalUnique | apps/relay/src/pricing-catalog.ts:116-125 | Canonical strings of one number are one string |
| DecimalText.ScaledTextIsTheNumber | apps/relay/src/pricing-catalog.ts:101-125 | Two rates scale to one text exactly when they are one number |

## Left out

- First sync (`runFirstSync`, `planFirstSync`): runs start after it, and it applies a plan that is deliberately not folded.
- Sign-out, `noteHistorySyncOff` and `seedHistorySyncFromCache`: a run is one signed-in account.
- Web clients' whole-document PUTs: every writer in the protocol is a phone that sends a snapshot. Rate limits, origins, authorization and schema validation are not modelled either.
- Deletion of stored quota history when the switch goes off, and all other SQL: the settings store is a list of revisions with an atomic compare-and-set, the rollup is the sum of its hours.
- Persistence of the queue is modelled as data; its JSON encoding is not. Queue ids are unbounded and budget amounts are whole cents.
- SettingsProtocol: `apply`'s local write and its queueing are one step; the `await` between them in AccountSettingsSync.swift:77-81 is not covered.
- AccountPeriods.PeriodIsItsHours: needs complete rollups only for the dates inside the period's window, because the summary read accepts a truncated daily read, which drops the oldest dates; it says nothing of periods the truncation reaches.
- LocalCalendar: `Intl.DateTimeFormat` is an arbitrary bounded clock, ISO dates are day numbers and hours are hour numbers. A zone that goes back across midnight on the hour grid is not `Regular`.
- Cost folding, cache savings, the unpriced-detail limit, `partial`, the activity rhythm and activity days: pricing is in a package that is not part of this model.
- AgentTree.BuildAgentTree: the nested answer carries names and totals, not costs; a real model named `other` may stand beside a fold, so model names under a provider are in order but not claimed distinct after bounding.
- AgentLeaves: a leaf's key is its triple of names, since the quoted key text is injective; counts are natural numbers, as the stored columns are.
- HistoryBody.PointsAscend: text is ordered by code unit, which is Swift's own order only where no two spellings of a character are equivalent, as in the identifiers used here.
- HistoryChunker.Chunks: needs one duration per series key, which the coordinator's own series have; sizes are the additive parts of the body's JSON, not its text.
- HistoryWatermarks: instants are whole seconds; `QuotaHistorySync.bucket`, the choice of snapshots and the generation and cancellation checks around awaits are not modelled. `build` and `send` are arbitrary functions.
- HistoryWatermarks.QuotaHistoryCoordinator.PerformSync: the stored watermark file is the account state itself, saved at every change.
- SampleJournal: instants are integers, used percents are exact numbers, sorting by time is stable, and the subscription selector is given.
- ProviderBackoff: instants are real numbers; the store that outlives the process is the state itself.
- CanonicalJson: a number is its own shortest text, so zero and negative zero are one value; entries are printed before they are sorted, which cannot be told apart.
- Base64Url.ConstantTimeEqual: that every byte is read whatever the bytes are is in its loop and not in its contract, since time is not modelled; it compares byte sequences; the UTF-8 encoder in front of it gives lone surrogates one replacement, so two strings that differ only there compare equal. Lengths are not truncated to 32 bits.
- `scaledRates` maps `multiplyByElevenTenths` over a record; the record and the catalog entries are finite data.
- Views, widgets, sign-in, Keychain, provider status, formatters, benches and build scripts: presentation, platform and plumbing.
