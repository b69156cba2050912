# Activity accounting, delivery and lock control: a verified model

Clients observe what a screen is used for, buffer the observations, and post them to a server. The server stores each
observation once and turns them into seconds of use per process. In the other direction the server holds a lock and a
configuration per device, which clients fetch by long polling and enforce with a warning countdown and an overlay. The
project models both paths and proves what they are for.

| path | files |
|---|---|
| observation, order, accounting | Observations, Reports, UsageLaws, WindowLaws |
| server table, intake, charts, lock history, stored times | EventStore, Intake, Devices, Charts, LockTransitions, TimeText, TimeReading |
| agent emission filter | AgentEmission |
| client buffer and upload protocol, end to end | EventBuffer, Delivery, Uploads, EndToEnd |
| screen-time collector | Names, Tape, Collector, TapeUsage, CollectorRuns, LostState, Layers, LaidTables, ResentRuns, LostRuns |
| collector, several members | CollectorMembers, GapTables, MemberHistories |
| collector, concrete histories | UtcCalendar, CollectorExamples, MemberExamples |
| configuration, fingerprint, long poll | Decimals, Fingerprint, FingerprintLayout, ServerConfig, LongPoll, Convergence |
| lock warning on Windows and macOS | LockHistory, LockWarning, WarningActor, WarningSound, WarningBanner |

One observation type (`Observations.Event`) and one accounting specification (`Reports.Usage`) serve all of them. The
central result is `UsageLaws.UsageIsPointwise`: the sort-and-clamp loop measures exactly the instants at which the newest
observation is active and fresh enough. Chart, collector, emission and delivery theorems are reductions to it.

Loops, records and classes that change in place are methods and classes proved against functions; protocols are step
machines over which invariants are proved for every run. Instants are integers in nanoseconds.

`dafny verify dfyconfig.toml` checks everything.

## Findings

* The collector's claim that re-sends after a lost state file or a crash never corrupt attribution (its docstring,
  lines 11-14, and the comment at line 319) is false. `CollectorExamples.CorruptedReport` is a history of two runs on 9
  July 2026, UTC: after a third without the state file the server reports 2 s and 2 s where 3 s and 1 s were scraped.
  `CollectorExamples.DiedAfterOneApp`: an app posted with 100 s by a run that died before saving, and then grown, is
  enough. `LostRuns.LostStateExact` and `LostRuns.CrashExact` say exactly when it holds, after any history and for any
  scraped totals: every stored heartbeat belongs to the app the new tape shows there or meets a heartbeat of the new
  tape, and where the stored tape ends, unless it was cut off, before the new one does, the new one has a heartbeat.
  `ResentRuns.HistoryReport` gives the report after any history at all. The hypotheses of these results hold in a real
  calendar (`UtcCalendar.UtcValid`) and of concrete histories (CollectorExamples).
* A collector run in which one member's post fails and a later member's succeeds writes the failed member's record as if
  it had been posted. `MemberHistories.RecordsReported`: over whole histories the server has all recorded totals of a
  member if and only if that never happened to it.
* The client buffer takes an id and the same id between two blanks as two ids, the server as one. In one batch they block
  the upload for good, in two the second event is lost. `EventBuffer.NoPoisonBatch`, `Uploads.BlockedExactly` and
  `Delivery.AllArrive` say exactly when; generated ids are safe (`Uploads.GeneratedFresh`). A time outside the years 0 to
  9999 blocks the buffer in the same way, since it cannot be read back.
* Event ids count across clients: an event whose id another client has used before is ignored.
  `Devices.ClientSees` says exactly what a client's device shows.
* On Windows the overlay can be up while the agent reports the screen as not locked; `LockWarning.OverlayDisagrees` says
  exactly when.
* On macOS the warning sound can play under the lock, and skipping equal orders then matters; `WarningSound.SoundIs`
  and `WarningSound.SameRunByHistory` say exactly when.
* The client buffer stores times in a layout whose text order is not time order; `TimeText.NanoOrder` says exactly when.

## Model

| member | source | states |
|---|---|---|
| Reports.CalculateUsage | server/internal/rootaika/reports.go:15-77 | the in-place sort and the four-clamp loop return a report whose total is the specified usage of everyone, whose map holds exactly the processes with a positive number of seconds, and whose total is the sum over the map |
| Observations.SortStable | server/internal/rootaika/reports.go:27-33 | sorting the copied slice in place gives the stable sort by time, then sequence |
| Observations.StableSortOrdered | server/internal/rootaika/reports.go:27-33 | the sort used by the accounting is an ordered permutation of its input |
| Observations.StableSortRowOrdered | server/internal/rootaika/store.go:970-974 | stably sorting rows kept by id gives the storage order time, sequence, id |
| Reports.SecondsOf | server/internal/rootaika/reports.go:35-75 | one turn of the loop: the next event, now, the window end and the gap cap applied in the order of the source give exactly the floored share of that observation |
| UsageLaws.UsageIsPointwise | server/internal/rootaika/reports.go:15-77 | for every list, window, now and gap: in nanoseconds the report counts exactly the instants, up to the end of the window or to now if that is set and earlier, whose newest observation is active and less than the gap old |
| UsageLaws.UsageCountsSeconds | server/internal/rootaika/reports.go:15-77 | with whole-second stamps it counts exactly the seconds whose newest observation (time, sequence) is an active one of the process, less than the gap old |
| WindowLaws.UsageCut | server/internal/rootaika/chart_data.go:160-163 | two consecutive windows never report more than the whole and at most one second less; nothing is lost in exact time |
| WindowLaws.UsagePartition | server/internal/rootaika/range_views.go:39-57 | any partition of a window loses at most one second per inner cut, in total and for every process |
| WindowLaws.UsagePartitionWhole | server/internal/rootaika/range_views.go:39-57 | and loses nothing when stamps, cuts, now and gap are whole seconds |
| WindowLaws.UsageGrows | server/internal/rootaika/chart_data.go:117-135 | a later window end never reports less |
| WindowLaws.UsageBounds | server/internal/rootaika/reports.go:53-73 | usage is at most what has passed of the window by now and at most the number of active observations times the gap; flooring hides less than one second per active observation |
| EventStore.Store.InsertEvents | server/internal/rootaika/store.go:386-416 | rows whose event id is known are ignored and counted as such, all others are appended in order; the rows of the device grow by exactly the first input under every new id, with its id, time, state, process if active and sequence, and the rows of other devices stay |
| EventStore.InsertedForDevice | server/internal/rootaika/store.go:386-416 | the same for any valid table and any inputs |
| EventStore.InsertAllValid | server/internal/rootaika/store.go:386-416 | inserting keeps event ids unique and row ids consecutive, and leaves exactly the old and the posted ids known |
| EventStore.ResendPrefix | server/internal/rootaika/store.go:394-397 | posting a prefix first and everything again afterwards leaves the very same table: rows, ids and order |
| EventStore.Store.ReportEvents | server/internal/rootaika/store.go:954-986 | returns the last row before the window in storage order, if any, and then the rows of the window in storage order |
| EventStore.FetchSuffices | server/internal/rootaika/store.go:954-986 | for every sub-window of the fetched window, usage of the fetched rows equals usage of all rows of the device |
| EventStore.FetchedReport | server/internal/rootaika/chart_data.go:155-163 | so a report made from one fetch is the report on the whole history, for any sub-window |
| Intake.ValidateBatch | server/internal/rootaika/handlers.go:72-119 | accepts a batch exactly when it is acceptable, returns its normalised events, and otherwise names the first fault, in the order of the checks, of the first offending event |
| Intake.RowShows | server/internal/rootaika/handlers.go:72-119 | the row made of a posted event shows its trimmed id, its time, the state named active, idle or locked, its sequence and, if active, its trimmed process or unknown |
| Intake.TrimIs | server/internal/rootaika/handlers.go:73-86 | trimming takes away all white space at both ends and nothing else |
| Devices.EventsEndpoint.EventsBatch | server/internal/rootaika/handlers.go:33-70 | the endpoint over all clients: a refused batch changes nothing, an accepted one registers its client on first contact and goes to the device of that client |
| Devices.ClientSees | server/internal/rootaika/handlers.go:33-70 | after any posts of any clients the device of a client shows, field by field, exactly those of its own accepted events whose id no accepted post had before, its own or another client |
| Devices.MembersApart | client-macos-screentime-collector/collector.py:312 | two members of the collector never share a device |
| Tape.Synthesize | client-macos-screentime-collector/collector.py:217-245 | the two nested loops lay every append down as heartbeats every 240 s and a terminator, continuing where the tape ends |
| Tape.PieceElements | client-macos-screentime-collector/collector.py:220-243 | an append is one heartbeat for every 240 s begun and the terminator; each has the time of its second of the day, twice the second as its sequence, plus one if active, and an id from member, day, tag and second |
| Tape.TapeClimbs | client-macos-screentime-collector/collector.py:220-243 | along a tape sequence numbers strictly increase and the stamps follow them |
| Tape.SameIdSameEvent | client-macos-screentime-collector/collector.py:230-241 | for one member two events with the same name are the same event, across days, apps, offsets and kinds |
| Decimals.UnsignedReads | client-macos-screentime-collector/collector.py:230 | the numerals in names and texts are read back as the numbers they were written for |
| Names.MemberNameInjective | client-macos-screentime-collector/collector.py:312 | members have different client ids |
| Names.EventNameInjective | client-macos-screentime-collector/collector.py:230 | day, tag and offset can be read back from the name an event id is made from, whatever characters the app name contains |
| Collector.GrowDay | client-macos-screentime-collector/collector.py:293-307 | the loop over the scraped apps appends exactly the growth of each total and ignores shrinks |
| Collector.DeltasAre | client-macos-screentime-collector/collector.py:293-307 | where no app is scraped twice the appends are, in the order scraped, exactly the positive differences between totals and record |
| Collector.GrowMatches | client-macos-screentime-collector/collector.py:293-307 | after it the day record says per app how much of the tape belongs to it, and its sum is the tape length |
| CollectorRuns.MemberCollector.PostEvents | client-macos-screentime-collector/collector.py:248-260 | posts in batches of 5000 and stops at the first refusal; well-formed events are all accepted |
| CollectorRuns.MemberCollector.RunMember | client-macos-screentime-collector/collector.py:281-319 | a run posts the continuation of every tape and writes the pruned state only after every batch succeeded; a failed run leaves the state file alone |
| CollectorRuns.SavedDays | client-macos-screentime-collector/collector.py:270-278 | a run that posted something leaves a record of exactly the days known before and those scraped, as far back as 35 days |
| CollectorMembers.SaveForgets | client-macos-screentime-collector/collector.py:270-278 | a save writes the record in memory, of all members, without the days before the cutoff |
| CollectorRuns.ResendAfterCrash | client-macos-screentime-collector/collector.py:248-260 | a crash after any number of posted events followed by the same run leaves the table of one clean run |
| CollectorRuns.RunsTrack | client-macos-screentime-collector/collector.py:281-319 | after any history of runs the state file matches the tapes for every day it still has to know |
| CollectorRuns.RunsFaithful | client-macos-screentime-collector/collector.py:281-319 | after any history of runs the server holds exactly the events of the tapes |
| TapeUsage.DayReport | client-macos-screentime-collector/collector.py:220-222 | on a table that holds the tapes the day report gives every app exactly its length on the tape of that day |
| CollectorRuns.ScrapedTotalsReported | client-macos-screentime-collector/collector.py:217-319 | for every history of successful runs with arbitrary totals, the report over a day gives each app exactly the running maximum of its scraped totals and their sum as the total |
| CollectorExamples.CollectAndReport | client-macos-screentime-collector/collector.py:217-319 | the collector class run over any history against an empty server, and the report on what the server fetches for the device and a day: each app has the running maximum of its scraped totals |
| UtcCalendar.UtcValid | client-macos-screentime-collector/collector.py:212-232 | there is a calendar of which everything assumed of calendars holds: the days from 2 January 1 to 31 December 9999 in Coordinated Universal Time, their midnights and ISO names |
| CollectorExamples.TwoRunsMeetAll | client-macos-screentime-collector/collector.py:281-319 | two runs in it that meet all hypotheses of CollectorRuns.ScrapedTotalsReported |
| CollectorExamples.ReportTwoRuns | client-macos-screentime-collector/collector.py:281-319 | for these two runs the collector class and the report give 3 s and 1 s, the newest totals |
| LaidTables.SecondLit | client-macos-screentime-collector/collector.py:217-260 | whatever tapes were posted over one another, whole or cut off: every second of every day is credited as the merged layers of its day say, where the newest heartbeat decides, a known one does not count again, and the end of a whole tape silences; on a day without a tape, as the layers of the last day with one leave it |
| LaidTables.RunsOn | client-macos-screentime-collector/collector.py:217-260 | on a day without a tape a second is credited to the heartbeat that the last second of the last day with a tape was, if any, as long as the gap cap allows, and to nothing where no tape was cut off |
| LaidTables.MergedReport | client-macos-screentime-collector/collector.py:217-260 | so the report on any stretch of any day gives everyone and every app the number of seconds so credited |
| LaidTables.CreditedIffKept | client-macos-screentime-collector/collector.py:217-260 | every second of a day is credited as the tape posted last says if and only if each deciding heartbeat belongs to the app it shows there and wherever an earlier whole tape ends before it there is a heartbeat, or, on a day without any tape, nothing runs on into it |
| LaidTables.ReportedIffKept | client-macos-screentime-collector/collector.py:217-260 | the same for the reports on all stretches of the day |
| Layers.KeptOverOne | client-macos-screentime-collector/collector.py:217-245 | for a single stored tape: each of its heartbeats belongs to the app the new tape shows there or meets a heartbeat of it, and where it ends, if posted whole, before the new one, that one has a heartbeat |
| Layers.MergedFresh | client-macos-screentime-collector/collector.py:217-245 | where every tape was posted whole, no second is credited to a heartbeat 240 s old, so every gap of at least 240 s gives the same |
| Layers.CutTapeEvents | client-macos-screentime-collector/collector.py:217-260 | the first n events of a tape are a shorter tape, without its last terminator where the cut falls inside an append |
| ResentRuns.HistoryReport | client-macos-screentime-collector/collector.py:281-319 | after any history of runs, each of which may die after any number of posted events, fail to save or have lost the state file, the report on any stretch of any day is the number of merged seconds of all posts, what runs on from earlier days included |
| ResentRuns.HistoryExact | client-macos-screentime-collector/collector.py:281-319 | and where the last run posted everything it comes out as its tapes say if and only if they are kept over all posts before |
| CollectorExamples.CutThenWholeCounted | client-macos-screentime-collector/collector.py:281-319 | a history with a run cut off after its first event that meets all hypotheses of ResentRuns.HistoryReport: 200 merged seconds |
| CollectorExamples.CutThenWholeReported | client-macos-screentime-collector/collector.py:281-319 | and of ResentRuns.HistoryExact: 200 s are reported |
| LostRuns.LostStateExact | client-macos-screentime-collector/collector.py:11-14 | after any history of successful runs the state file is lost and a run scrapes any totals: every second of a day is credited, and every stretch of it reported, as on the tape of that run if and only if that tape is kept over the stored one; days the run did not scrape stay as they were |
| LostRuns.LostStateReport | client-macos-screentime-collector/collector.py:11-14 | for the day as a whole: every app gets its merged seconds, which are the scraped totals if and only if the merged totals agree; where no total has shrunk those are the totals had nothing been lost |
| LostRuns.TotalsWithoutSeconds | client-macos-screentime-collector/collector.py:11-14 | a stored and a new tape for which the day totals agree although single seconds do not |
| LostRuns.CrashExact | client-macos-screentime-collector/collector.py:319 | a run dies after any number of posted events, inside a tape or not, and the next run from the same state scrapes any totals: on every day seconds and stretches come out as on its tapes if and only if they are kept over what the dead run posted or, where the day has no tape, nothing the dead run cut off runs on into it |
| LostRuns.GrownAfterCrash | client-macos-screentime-collector/collector.py:319 | one app posted in full by a run that died before saving, then grown: the day comes out right if and only if the first total fills whole heartbeats |
| LostRuns.ScrapedOnce | client-macos-screentime-collector/collector.py:299-301 | with every name scraped once the total is the one scraped under the name |
| LostRuns.SingleApp | client-macos-screentime-collector/collector.py:11-14 | on a day with one app, however it grew, the new tape is kept exactly when the stored one was cut off, nothing was stored, nothing was added, or what was stored fills whole heartbeats |
| LostRuns.PrefixKeeps | client-macos-screentime-collector/collector.py:11-14 | the new tape is kept whenever its appends only follow the stored ones |
| LostRuns.StoredOnRun | client-macos-screentime-collector/collector.py:293-307 | after any history of runs, all events stored for a day are on the tape of a run without state if and only if the stored appends are its first appends |
| LostState.StoredOnFresh | client-macos-screentime-collector/collector.py:220-243 | which holds of any two tapes of a day where the new one names every app once and no total has shrunk |
| LostState.LostStateHarmless | client-macos-screentime-collector/collector.py:11-14 | in that case re-sending leaves exactly the new tape on the server, row for row |
| LostState.LostStateCorrupts | client-macos-screentime-collector/collector.py:11-14 | a reachable history on which attribution changes: two runs over any two apps after which a run without state makes the server report 2 s and 2 s where 3 s and 1 s were scraped |
| CollectorExamples.CorruptedReport | client-macos-screentime-collector/collector.py:11-14 | the same in one concrete calendar and on one day, for two named apps: the server reports 2 s and 2 s where 3 s and 1 s were scraped |
| CollectorExamples.LostAfterTwoRuns | client-macos-screentime-collector/collector.py:11-14 | all hypotheses of LostRuns.LostStateExact hold of that history, and by it the report is wrong |
| CollectorExamples.LostAfterOneApp | client-macos-screentime-collector/collector.py:11-14 | and of one app scraped with x s and, after the state is lost, with more: the day comes out right if and only if x is a multiple of 240 |
| CollectorExamples.DiedAfterOneApp | client-macos-screentime-collector/collector.py:319 | the same for a run that posted x s and died before saving, as an instance of LostRuns.CrashExact |
| LostRuns.GrownNotKept | client-macos-screentime-collector/collector.py:11-14 | the tapes of that history fail the exact condition |
| CollectorMembers.MemberStates.RunAll | client-macos-screentime-collector/collector.py:281-368 | the loop over the members with the state they share: a record is advanced in memory before its events are posted, and whoever posts successfully writes the records of all |
| CollectorMembers.FailedPost | client-macos-screentime-collector/collector.py:281-319 | a member whose post failed posts the very same events again in the next run if no later member of the run saved, and none of them if one did |
| CollectorMembers.LostForGood | client-macos-screentime-collector/collector.py:303-319 | two members, the first failing to post anything and the second saving, after which the same totals of the first post nothing |
| GapTables.GapSecond | client-macos-screentime-collector/collector.py:217-260 | on a table from which whole pieces of the tapes are missing every second of a day is credited to the app its tape shows there, unless it is missing |
| GapTables.DayReportedIff | client-macos-screentime-collector/collector.py:217-260 | so all totals of a day are reported if and only if no second of its tape is missing |
| MemberHistories.MemberReport | client-macos-screentime-collector/collector.py:281-368 | after any history of runs over all members, whose posts may fail, the report on any stretch of a day gives a member the seconds of its recorded tape less those of the posts that failed and were recorded by a later save |
| MemberHistories.RecordsReported | client-macos-screentime-collector/collector.py:281-368 | all recorded totals of a member are reported if and only if no failed post of the member was followed by a save in the same run; for the days the file keeps they are the totals in the file |
| MemberExamples.TwoMembersReported | client-macos-screentime-collector/collector.py:303-319 | one run over two members, the first failing to post and the second saving, that meets all hypotheses: the totals of the second are reported, those of the first are not, though the file holds both |
| AgentEmission.Report | client-windows/internal/agentapp/agentapp.go:131-147 | the reporting part of the loop sends exactly what the filter and the outcome of each post let through |
| AgentEmission.FailedIsUnheard | client-windows/internal/agentapp/agentapp.go:131-147 | an observation whose post failed might as well not have been made: what gets through is what the filter lets through of the others |
| AgentEmission.NewestIsRepresented | client-windows/internal/agentapp/agentapp.go:200-211 | what was sent last always has the activity of the newest observation and is less than a heartbeat older |
| AgentEmission.EmittedSparse | client-windows/internal/agentapp/agentapp.go:200-211 | two neighbouring reports differ in activity or lie a heartbeat apart |
| AgentEmission.EmissionPreservesUsage | client-windows/internal/agentapp/agentapp.go:200-211 | if within the window no counted gap plus a heartbeat exceeds the cap, usage of what was sent equals usage of everything observed in exact time, and exceeds it in whole seconds by at most one per dropped observation |
| AgentEmission.EmissionLosesLittle | client-windows/internal/agentapp/agentapp.go:200-211 | whatever the gaps, what was sent is below everything observed by at most one heartbeat per long gap in the window, and above it by nothing in exact time and one second per dropped observation otherwise |
| EventBuffer.EventBuffer.Enqueue | client-windows/internal/buffer/buffer.go:52-81 | an event is queued exactly when its id, type and state are in order and its id, as text, is not held: under the next sequence, with its own id, or the new one if it has none, its own time, or now if it has none, its state, and its process if active; otherwise nothing changes and the first fault is named |
| EventBuffer.AcceptedForms | client-windows/internal/buffer/buffer.go:176-182 | plain, URN and braced ids are accepted, and none of another length than theirs and 32 |
| EventBuffer.EventIdTrimmed | client-windows/internal/buffer/buffer.go:176-182 | an accepted id is never blank, and the server takes it as it is exactly unless white space stands at one of its ends, which only the 38 character form allows |
| EventBuffer.EventBuffer.Pending | client-windows/internal/buffer/buffer.go:83-114 | the first unsent events in row order, at most the batch size; fails exactly when one of them has a time outside the years 0 to 9999 |
| EventBuffer.EventBuffer.MarkSent | client-windows/internal/buffer/buffer.go:116-147 | exactly the named rows are marked, then sent rows past retention are dropped |
| EventBuffer.MarkedExactly | client-windows/internal/buffer/buffer.go:116-147 | the rows afterwards are those before, the named ones marked now and the others as they were, without those sent more than seven days ago |
| EventBuffer.MarkedValid | client-windows/internal/buffer/buffer.go:116-147 | marking and purging keep ids and sequences growing together and every row fit for the server |
| EventBuffer.NoPoisonBatch | client-windows/internal/buffer/buffer.go:83-114 | a pending batch of a buffer filled by Enqueue is accepted by the server if and only if its size is 1 to 10000, the client id is not blank and no two of its ids agree once trimmed; its sequences strictly increase |
| EventBuffer.PlainBatchAccepted | client-windows/internal/buffer/buffer.go:83-114 | where no held id carries outer white space, as none that was generated does, a batch is refused only for its size or a blank client id |
| Delivery.SafeNext | client-windows/internal/serviceapp/app.go:170-189 | every step of the delivery protocol, with late and repeated deliveries, lost answers and crashes, keeps the safety invariant |
| Delivery.AtLeastOnce | client-windows/internal/serviceapp/app.go:170-189 | in every run every enqueued event waits in the buffer or its id is on the server, a sent mark or a purge means the id is there, the server holds an id once and nothing that was not enqueued, normalised; sequence numbers are gap-free across crashes |
| Delivery.ExactlyOnce | client-windows/internal/serviceapp/app.go:170-189 | in every run in which no two enqueued ids agree once trimmed, an enqueued event waits in the buffer or is itself on the server, and a sent mark or a purge means it is there |
| Delivery.AllArrive | client-windows/internal/serviceapp/app.go:170-189 | once nothing is pending the server has every enqueued event if and only if no two of their ids agree once trimmed |
| Delivery.DeliveredReport | client-windows/internal/serviceapp/app.go:170-189 | once nothing is pending, and where no two ids agree once trimmed, the report on what the server fetches for the device equals the report on the enqueued stream, its trimmed ids, times, named states, processes and sequences, whatever the order of arrival |
| Delivery.SameObservationsSameUsage | server/internal/rootaika/reports.go:27-33 | tables that hold the same observations under different row ids give the same report |
| Delivery.UploadOnce | client-windows/internal/serviceapp/app.go:170-189 | one upload marks exactly the posted events and only after a successful answer; a batch that cannot be read or is refused changes nothing |
| Delivery.UploadDrains | client-windows/internal/serviceapp/app.go:170-189 | every acknowledged upload takes exactly its batch from the front of what is pending, a non-empty one while anything waits |
| Uploads.BlockedExactly | client-windows/internal/serviceapp/app.go:170-189 | an upload cannot succeed exactly when the client id is blank, the batch too large, two ids in it agree once trimmed, or a time in it lies outside the years 0 to 9999 |
| Uploads.UploadGoesThrough | client-windows/internal/serviceapp/app.go:170-189 | otherwise it can: four steps of the protocol take the batch from the front |
| Uploads.BlockedForever | client-windows/internal/serviceapp/app.go:170-189 | and once the buffer is blocked nothing that was waiting is ever marked sent, in whatever way the run goes on |
| Uploads.SameIdBlocks | client-windows/internal/buffer/buffer.go:52-81 | two calls of Enqueue that do so: an id, and the same id between two blanks |
| Uploads.SameIdLost | client-windows/internal/serviceapp/app.go:170-189 | uploaded one by one the second is marked sent and never stored |
| Uploads.GeneratedFresh | client-windows/internal/buffer/buffer.go:176-182 | generated ids, none of which repeats, never agree once trimmed |
| EndToEnd.ObservedUsageReported | client-windows/internal/agentapp/agentapp.go:131-147 | from observation over filter, local post, buffer and unreliable upload: once nothing is pending the report on what the server fetches for the device is above the report on everything observed, except where the local post failed, by nothing in exact time and at most one second per dropped observation otherwise, and below it by at most one heartbeat per long gap in the window, for observations with and without a process name |
| EndToEnd.EnqueuedAsPosted | client-windows/internal/buffer/buffer.go:176-201 | in every run of the protocol the queued events are the posted ones in order, with their ids, times, states and processes |
| EndToEnd.PostedIsRecorded | server/internal/rootaika/handlers.go:72-119 | what the agent posts and the server stores counts like what was observed, also where there is no foreground process name |
| Fingerprint.ConfigVersionText | server/internal/rootaika/notifier.go:43-63 | the header and the category loop write exactly the specified fields |
| FingerprintLayout.PrintedAs | server/internal/rootaika/notifier.go:43-63 | the text in full: the header, field by field, and what the loop prints for every category |
| FingerprintLayout.EscapeReads | server/internal/rootaika/notifier.go:45 | every character of a quoted text is read back from its escape, whatever follows |
| Fingerprint.FieldsInjective | server/internal/rootaika/notifier.go:45-61 | two field lists of the same shape write the same bytes only if they are equal, over all messages, quotes and separators |
| Fingerprint.FingerprintDeterminesBody | server/internal/rootaika/notifier.go:43-63 | two configurations write the same bytes into the hash if and only if the contents a client is sent are equal, for any number of categories |
| ServerConfig.ConfigStore.SetDeviceLock | server/internal/rootaika/store.go:554-577 | the lock row is replaced and an unlock clears message and warning |
| ServerConfig.ConfigStore.DeviceCommand | server/internal/rootaika/handlers.go:336-355 | stores the warning clamped to 0..600 s, unchanged inside that range, and an unlocked device keeps neither message nor warning |
| ServerConfig.ConfigStore.LockAllLocks | server/internal/rootaika/store.go:597-610 | locks the device exactly when it is assigned, and returns how many were |
| ServerConfig.ConfigStore.UnlockAllLocks | server/internal/rootaika/store.go:615-628 | unlocks the device exactly when it is assigned, and returns how many were |
| ServerConfig.ConfigStore.UpdateSettings | server/internal/rootaika/store.go:789-825 | refuses a non-positive value without any change, and otherwise copies the intervals into the device row |
| ServerConfig.ClientConfigFile.ApplyServerConfig | client-windows/internal/config/config.go:150-199 | takes over field by field what the response carries, keeps the rest, and reports a change exactly when something changed |
| ServerConfig.EffectiveTells | server/internal/rootaika/store.go:420-466 | what a client is told is what the tables say: intervals, gap, debug mode, lock, message, warning, sound and categories, and the version selected for the device or else globally, or none if it is not registered |
| ServerConfig.AppliedInSync | client-windows/internal/config/config.go:150-199 | applying a configuration leaves the client in sync if and only if its intervals are positive or already held and an unlocked one carries no message and no warning |
| ServerConfig.SyncFollowsFingerprint | server/internal/rootaika/notifier.go:43-63 | whether a client is in sync depends only on the fingerprint text |
| LongPoll.ConfigNotifier.Notify | server/internal/rootaika/notifier.go:32-37 | closes every channel handed out so far and opens a new one |
| LongPoll.GoodNext | server/internal/rootaika/handlers.go:207-231 | every step of writers, table-by-table readers, pollers and the client keeps the poller invariant |
| LongPoll.NoLostWakeup | server/internal/rootaika/handlers.go:207-231 | in every interleaving a held poller whose known version is not the current one has a closed channel or a writer that still owes its notification |
| LongPoll.TurnsBounded | server/internal/rootaika/handlers.go:210-230 | a poller takes at most one turn more than there were notifications since it arrived |
| Convergence.ConsistentNext | client-windows/internal/serviceapp/app.go:213-233 | every step keeps: the stored version is the fingerprint of the last configuration the client applied, and the client runs with it |
| Convergence.QuietPollConverges | client-windows/internal/serviceapp/app.go:213-233 | once the notifying writers are quiet, the first poll started from then on leaves the client in sync with the tables, field by field, and told what they say, the version of its own selection included |
| Convergence.HeldPollInSync | server/internal/rootaika/handlers.go:186-198 | a client whose poll is held with no wakeup on its way is in sync already, and was told what the tables say |
| Convergence.HeldExactly | server/internal/rootaika/handlers.go:186-198 | in quiet times a poll is held exactly when it is willing to wait and its client has the version of the tables, and answered at once otherwise |
| LockWarning.WarningLoop.Tick | client-windows/internal/agentapp/agentapp.go:83-125 | one turn of the loop over the warning variables |
| LockWarning.ReportsLocked | client-windows/internal/agentapp/agentapp.go:83-125 | in every history a turn reports the screen locked if and only if lock is requested and either no warning is asked for or the countdown of this very stretch has ended |
| LockWarning.OneCountdownPerStretch | client-windows/internal/agentapp/agentapp.go:102-114 | a countdown is started exactly by the first turn of a stretch that asks for a warning |
| LockWarning.UnlockCancels | client-windows/internal/agentapp/agentapp.go:115-121 | an unlock cancels; only the countdown of the current stretch is ever left uncancelled |
| LockWarning.OverlayDisagrees | client-windows/internal/agentapp/agentapp.go:83-125 | the overlay is up while the turn reports unlocked if and only if a warned lock is requested, its countdown has not ended, and an earlier turn of the stretch asked for no warning |
| LockWarning.RelockedWithWarning | client-windows/internal/agentapp/agentapp.go:83-125 | the shortest history that does so: lock with 0 s, then with 60 s |
| WarningActor.Core.ApplyLockState | client-macos/Sources/RootaikaMac/Core.swift:143-185 | one turn of the actor, skipped when the signature text is unchanged |
| WarningActor.Core.RunWarningCountdown | client-macos/Sources/RootaikaMac/Core.swift:187-204 | what a countdown does between two sleeps |
| WarningActor.SignatureInjective | client-macos/Sources/RootaikaMac/Core.swift:144 | equal signatures come from equal orders, whatever the message contains |
| WarningActor.OneLiveCountdown | client-macos/Sources/RootaikaMac/Core.swift:143-204 | in every interleaving at most one countdown is neither cancelled nor over, and it is warningTask |
| WarningActor.Ran | client-macos/Sources/RootaikaMac/Core.swift:187-204 | a countdown that is not warningTask, cancelled ones included, never engages the overlay |
| WarningActor.OverlayIs | client-macos/Sources/RootaikaMac/Core.swift:143-215 | in every interleaving the overlay is up if and only if the stretch asked for no warning or its one countdown lived through all its seconds; every stretch starts at most one |
| WarningActor.SkipUnobservable | client-macos/Sources/RootaikaMac/Core.swift:144-147 | skipping an unchanged signature equals acting again, except exactly when that would silence a sound playing under the lock |
| WarningActor.SkipChangesOnlySound | client-macos/Sources/RootaikaMac/Core.swift:144-147 | over whole runs: without the skip every interleaving has the same countdowns, fields, overlay and banner, and is at most quieter |
| WarningActor.SameRun | client-macos/Sources/RootaikaMac/Core.swift:144-147 | and is the same from beginning to end if and only if no order is skipped under the lock while a sound plays |
| WarningSound.SoundIs | client-macos/Sources/RootaikaMac/Core.swift:143-215 | in every interleaving the sound plays if and only if the countdown of the stretch has begun with a sound and not elapsed, and since it began no order for an immediate lock was acted upon and no countdown of an earlier stretch has ended |
| WarningSound.AudibleSkipIs | client-macos/Sources/RootaikaMac/Core.swift:144-147 | so skipping can be heard exactly where an order for an immediate lock repeats the one before while that is so |
| WarningSound.SameRunByHistory | client-macos/Sources/RootaikaMac/Core.swift:144-147 | and a run is the same with and without the skip if and only if that happens nowhere, said by orders and countdown steps alone |
| WarningBanner.BannerIs | client-macos/Sources/RootaikaMac/Core.swift:143-215 | in every interleaving the banner is shown exactly while the countdown of the stretch runs, no immediate lock was asked for in the stretch and no countdown of an earlier stretch has ended since it last ran, with the message of the order that started it and its seconds less one for every further run |
| WarningBanner.LockTextIs | client-macos/Sources/RootaikaMac/Core.swift:143-215 | in every interleaving the overlay has the message and the debug button of the last order that was acted upon under the lock or, if the warning has elapsed since, the message of the order that started it |
| WarningActor.SoundUnderLock | client-macos/Sources/RootaikaMac/Core.swift:163-185 | a history in which the sound does play under the lock and an order is audibly skipped |
| LockTransitions.ListTransitions | server/internal/rootaika/store.go:879-917 | returns the newest transitions, newest first, at most the limit (200 when not positive) |
| LockTransitions.TransitionRowsComplete | server/internal/rootaika/store.go:883-898 | the list is drawn from exactly the transitions of every device |
| LockTransitions.TransitionsAlternate | server/internal/rootaika/store.go:888-897 | per device transitions are in storage order and alternate, beginning with a lock |
| LockTransitions.HistoryFaithful | server/internal/rootaika/store.go:874-898 | at every row the latest transition up to it says whether it is locked; none means unlocked |
| LockTransitions.HistoryAtInstant | server/internal/rootaika/store.go:874-898 | and at every instant the newest transition says whether the newest observation is a lock |
| LockTransitions.LockedCountsNothing | server/internal/rootaika/store.go:874-877 | while the history says locked the usage report counts nothing |
| TimeText.DBTimeOrder | server/internal/rootaika/store.go:1131-1133 | for the years 0 to 9999 stored texts compare exactly like the times, and are equal exactly when the nanoseconds are |
| TimeReading.DBTimeReads | server/internal/rootaika/store.go:1131-1142 | the text of a time has the 30 characters of the layout, shows a date of the calendar and a time of day, and read back is the time |
| TimeReading.NanoReads | client-windows/internal/buffer/buffer.go:102-107 | and so does the text of the client buffer |
| TimeReading.WrittenAsItself | server/internal/rootaika/store.go:1131-1142 | every time of day of every date of the years 0 to 9999 is written as itself |
| TimeReading.ZeroTime | server/internal/rootaika/reports.go:20 | the unset time is the first instant of year 1 |
| TimeReading.CalendarFacts | server/internal/rootaika/store.go:1131-1133 | 1970 begins where the count of days begins, and months and years are as long as they are |
| UtcCalendar.IsoDateStored | client-macos-screentime-collector/collector.py:230 | the name of a day is the date stored for its midnight |
| TimeText.TextWindow | server/internal/rootaika/store.go:970-974 | the text comparisons of the query select exactly the times of the window |
| TimeText.NanoOrder | client-windows/internal/buffer/buffer.go:232-234 | the texts of the client buffer order two times correctly if and only if they do not share a second in which the earlier fraction continues in the later |
| TimeText.WholeSecondComesLast | client-windows/internal/buffer/buffer.go:232-234 | a whole second is written as if it came after every later time of that second |
| TimeText.NanoText | client-windows/internal/buffer/buffer.go:102-107 | for the years 0 to 9999 the text of the client buffer determines the time it was written for |
| Charts.DailySpans | server/internal/rootaika/range_views.go:39-57 | contiguous days in order, ending with today, for any increasing midnights |
| Charts.IntradaySpans | server/internal/rootaika/chart_data.go:117-135 | spans share the midnight, their ends strictly increase on the quarter-hour grid and finish at now |
| Charts.UsageSeries | server/internal/rootaika/chart_data.go:148-163 | every point computed from the one fetch equals the usage of everything the device ever reported |
| Charts.ProgramSeries | server/internal/rootaika/chart_data.go:197-235 | every program point equals its usage over all rows, and a program that shows up in any span is never dropped |
| Charts.TodayChart | server/internal/rootaika/chart_data.go:117-163 | spans and points of the chart of today together: the points never fall and the last one is the usage of the day so far |
| Charts.DailyChart | server/internal/rootaika/range_views.go:39-57 | spans and points of a week or month chart together: the points add up to the whole range, less at most one second per midnight between them |
| Charts.CumulativeSeriesGrows | server/internal/rootaika/chart_data.go:117-135 | on the chart of today no series ever falls, in total or for any program |
| Charts.DaysAddUp | server/internal/rootaika/range_views.go:39-57 | the days add up to the whole range, less at most one second per midnight between them |
| Charts.DaysAddUpExactly | server/internal/rootaika/range_views.go:39-57 | and lose nothing when every observation, midnight, the gap and now are whole seconds |

## Left out

Environment and scope:

- HTTP, authentication, request decoding and the 5 MB body limit: a request is a value that may arrive any number of times.
- SQLite, connection healing and disk: tables are sequences, transactions are single steps; a comparison of stored times is a comparison of instants, which `TimeText` justifies.
- Overlay windows, PowerShell, probes, templates, chart JavaScript, e-ink display, firmware, OTA download and sound caching.
- Time-zone rules: local midnights are any strictly increasing function on the days between a first and a last one, so a day whose midnight does not exist is not treated.
- The macOS event buffer and daemon repeat the design of the Windows buffer.
- UUID version 5 (section 5.5 of RFC 9562) and FNV-64: a hash is taken to be injective, and the name or text stands for it.
- Device deletion, user, category and version administration, which add only single-row updates.
- Invalid UTF-8: texts are sequences of characters; which characters are printable is a parameter of the quoting.

Members stated for less than the source may do:

- Reports.SecondsOf: seconds are the exact floor; the source goes through a 64-bit float, which can round up a segment of more than 2^24 s that ends within rounding of a full second, and saturates beyond 292 years.
- Observations.SortStable: the library's stable sort is modelled by insertion, since every stable sort gives the same list.
- Devices.EventsEndpoint.EventsBatch: of a device only the client it belongs to is kept; names, users and the time of last contact are not.
- EventStore.Store.InsertEvents: row deletion is outside, so row ids are consecutive; arrival times and the constant type column are not kept.
- AgentEmission.Report: a post either gets through and is answered or does neither; an answer lost on the local connection is not modelled.
- EventBuffer.EventBuffer.Enqueue: the source of the UUID library is not part of this model; what it accepts follows its documentation (36, 45, 38 and 32 characters, the outer two of 38 not examined); generated ids have the plain form and are new.
- EventBuffer.EventBuffer.MarkSent: retention compares instants, while the source compares texts that differ from them within one second only (`TimeText.NanoOrder`).
- CollectorRuns.MemberCollector.RunMember: one member, scraped days at most 35 days old and today not going backwards; the members of one run share their state in CollectorMembers.
- CollectorRuns.ScrapedTotalsReported: app names are non-empty, trimmed and not `idle`, which would collide with a terminator; a tape is shorter than its day; the table is that of the member's device.
- LostState.StoredOnFresh: about stored events only, for totals that have not shrunk; attribution is settled by LostRuns.LostStateExact.
- LostState.LostStateHarmless: one sufficient condition, stated for tapes; the exact one, stated for runs, is LostRuns.LostStateExact.
- CollectorRuns.ResendAfterCrash: for the same events again; totals that have grown in between are LostRuns.CrashExact.
- ResentRuns.HistoryReport: the bounds on names, days and tape lengths are those of CollectorRuns.ScrapedTotalsReported.
- CollectorMembers.FailedPost: members are named once each; whole histories, with totals that grow, are MemberHistories.RecordsReported.
- MemberHistories.RecordsReported: a failed post of the member lets nothing through, as when it fits into one request of 5000 events; posts cut off between requests are followed for one member in ResentRuns.HistoryReport.
- LongPoll.NoLostWakeup: writers are those that notify; device deletion and version creation do not, nor does a lock whose audit entry fails after its update.
- Convergence.QuietPollConverges: a poll that the client abandons or a restart interrupts is not the poll meant.
- ServerConfig.ConfigStore.SetDeviceLock: the error for a device without a configuration row and the audit entry are not modelled.
- ServerConfig.ConfigStore.LockAllLocks: the tables are those of one device, and the audit log is not kept.
- ServerConfig.ConfigStore.UnlockAllLocks: likewise.
- LockWarning.OverlayDisagrees: the overlay is what was last asked of it; a call that fails, which the source only logs, leaves the real window behind.
- WarningActor.OverlayIs: work handed to the main thread is done at once, and there is at least one screen.
- LockTransitions.ListTransitions: rows of equal time may come in any order, as in the query; device names are not joined in.
- Charts.UsageSeries: points stay in seconds; rounding to tenths of a minute and dropping leading empty days come after.
- Charts.ProgramSeries: the largest-first order of the programs, rounding and dropping leading empty days come after.
- Charts.TodayChart: points in seconds, for one device.
- Charts.DailyChart: points in seconds, for one device; leading empty days are kept.
