# A verified model of the admin Radarr/Sonarr layer and the account lifecycle

This project models, in Dafny, the decision logic behind the administration pages that
drive Radarr and Sonarr ("the arrs"), and the removal of user accounts. Each module follows
one part of the source and proves what that part is for, over every input, every run or
every interleaving. External services, clocks, timers and the database are steps of a state
machine or parameters whose answers are arbitrary; where a guarantee rests on an assumption
about them, the assumption is a stated hypothesis, and where it can be, the exact condition
is proved.

| module | what it is about |
|---|---|
| `MarkFailed` | concurrent "mark failed" requests and the claim book that lets one through |
| `CommandPacing`, `CommandWatcher` | the polling loop that follows commands: its give-up rule, and the watcher as a state machine |
| `SaveQueue`, `LandedWrites` | one-at-a-time whole-resource saves, and what the writes that land, in time or late, leave of each other |
| `ProviderSave` | one provider save with its test and read-back |
| `FileDeletes` | file deletions that fail part-way |
| `Accounts` | disabling, re-enabling, purging and role changes as interleaved transactions |
| `HistoryRows`, `QueueRows`, `CalendarRows`, `SearchPlan` | the folds that group records into rows, cells and plans |
| `SnapshotStore`, `HealthNotify` | two bounded memories: last good answers, and last forwarded health states |
| `BlocklistRemoval` | the bounded scan that finds entries before they are removed |
| `Disks` | comparable paths, the remembered disk list, and the disk a folder is on |
| `CalendarWindow` | padding a viewer's days into a query and filtering the answer |
| `SettingKeys` | deriving setting keys from instance names |

Verify the whole project with `dafny verify dfyconfig.toml` (Dafny 4.11).

## What the model found

- A mark of a download is accepted at most once exactly when the history read and a late
  action of the arr stay within the holds, the grab's own failure can be recognised, and no
  other title has a grab of the download still open (`MarkFailed.NeverTwiceExactly`). The
  claim is kept per download but reaches only as far as one title's records, and so does the
  history it is checked against: a download grabbed for two titles of one instance can be
  marked twice, at once where the second title's grab is the newer
  (`MarkFailed.TwoTitlesAreMarkedTwice`, `MarkFailed.TwoTitlesAtOnce`).
- No landed save is lost exactly while no body put back whole, in its turn or late, differs
  from what landed since it was read, but in what it means to change
  (`LandedWrites.NothingIsLostExactly`). In its turn none does; a save that lands after it was
  given up on can take back the next one or be overwritten by it
  (`LandedWrites.LateAfterTheNext`, `LandedWrites.LateBeforeTheNext`,
  `LandedWrites.ALandedSaveCanBeLost`).
- The last active admin is lost exactly when a deactivation or demotion of the only one
  commits that is either stale (a deactivation whose role was read before the row became an
  active admin's) or overtaken (a stale one committed after its count)
  (`Accounts.LossExactly`, `Accounts.AnAdminRemainsExactly`). The routes that read the role
  under advisory lock 42 alone never do this (`Accounts.UnderTheLockAnAdminRemains`). The
  self-service route reads it in its transaction but without the lock: one run loses the last
  admin to it (`Accounts.AnUnlockedReadLosesTheLastAdmin`), and in another it makes a demotion
  that read and counted under the lock take the last one
  (`Accounts.AnOvertakenCountLosesTheLastAdmin`).
- A clear of the snapshot store holds exactly while no read that was out at it keeps an
  answer after it (`SnapshotStore.ClearsWinExactly`). The check at
  src/lib/arr-snapshot.ts:317 does not see to that: a live read passes no check, a clear may
  fall between the check and the keep, and a page opened again after the clear lets an older
  refresh through
  (`SnapshotStore.ALiveReadOutlivesAClear`, `SnapshotStore.AClearBetweenCheckAndKeepIsLost`,
  `SnapshotStore.AReopeningHidesTheClear`).
- A calendar cell's progress does not depend on entry order exactly when its best-ranked
  entries share one progress (`CalendarRows.ProgressExactly`).
- Setting keys collide in exactly one pair per service, and the slug in it is one that is
  allowed (`SettingKeys.KeysCollideExactly`, `SettingKeys.ExternalIsAValidSlug`).

## Hypotheses

- `MarkFailed`: `lag` bounds the time from a history read to its claim check, `post` a POST
  with its fallbacks, `drift` how long the arr may act on a POST we gave up on; a definite
  refusal wrote nothing; history ids only grow; the arr lists a mark's failure under the
  marked grab's own title, with its download id, title and episode.
- `CommandWatcher`: a read that went out never answers "skipped"; the host calls the watcher
  only between its steps. A cancelled timer may still fire, and a read may answer at any time
  with anything else.
- `SaveQueue`: a write lands before its function returns, or never; `LandedWrites` lifts
  this. A whole resource put back carries what was read and the change, and the arr lands a
  write at most once.
- `Accounts`: the boot heal ran and succeeded (the program carries on when it fails); rows
  already carrying the purge marker are disabled when the process starts;
  nothing outside the modelled statements writes the marker or a tombstone address; an
  update takes its row's lock until its transaction ends and sees the newest committed row,
  while the count inside a guarded update sees the moment the statement began.
- `BlocklistRemoval`: the arr pages its list honestly and the list stands still during the call.
- `CalendarWindow`: local days follow one another and begin within 12 hours after and 14
  hours before their UTC date.

## Model

| member | source | states |
|---|---|---|
| `MarkFailed.ClaimBook.CheckAndClaim` | src/lib/arr-title-data.ts:574-585 | The check and the claim in one step: refused exactly when a newer failure is in the history read, or a claim that has not run out reaches the grab; otherwise a claim of ten minutes is taken up to the newest record read; of the other claims those that have run out are gone and the rest stand |
| `MarkFailed.ClaimBook.AfterPost` | src/lib/arr-title-data.ts:586-594 | Of this mark's own claim: a status from 400 to 499 other than 408 hands it back at once, an acceptance leaves it, any other failure leaves it at most ninety seconds more; no claim of another mark or key is touched |
| `MarkFailed.KeysAreDownloads` | src/lib/arr-title-data.ts:581 | Two grabs are claimed as one exactly when they are one download's, or one record that has no download id |
| `MarkFailed.AlreadyFailedMeans` | src/lib/arr-title-data.ts:574-577 | The history check finds a failure exactly when some record is one newer than the grab, by download id or by the identity of an id-less grab |
| `MarkFailed.AtMostOneMarkIsAccepted` | src/lib/arr-title-data.ts:522-596 | Any number of concurrent marks of one download, whatever mix of acceptances, refusals and timeouts they meet: the arr accepts at most one, where the grabs still open are one title's |
| `MarkFailed.NeverTwiceExactly` | src/lib/arr-title-data.ts:522-596 | That guarantee holds if and only if the two waits are within the holds, the grab's own failure can be recognised, and no other title has a grab of the download still open |
| `MarkFailed.SlowMarksMeetTwice` | src/lib/arr-title-data.ts:540-541 | Waits beyond the holds: a run in which two marks of one grab are accepted |
| `MarkFailed.UnidentifiableIsMarkedTwice` | src/lib/arr-history.ts:357-361 | A grab whose failure cannot be told to be its own can be marked again once its claim has run out |
| `MarkFailed.FreshClaimIsAlone` | src/lib/arr-title-data.ts:574-585 | In any run, when a mark passes the check no other mark of the download was accepted or still can be, and no claim of it is live |
| `MarkFailed.RegrabIsNotBlocked` | src/lib/arr-title-data.ts:536-539 | After any run, a grab recorded now can be marked: no earlier claim stands in its way |
| `MarkFailed.TwoTitlesAreMarkedTwice` | src/lib/arr-title-data.ts:581-585 | A download still open under two titles: a run in which the arr accepts a mark of each |
| `MarkFailed.TwoTitlesAtOnce` | src/lib/arr-title-data.ts:581-585 | Where the second title's grab is newer than all of the first's records, without any wait |
| `MarkFailed.HeldExactly` | src/lib/arr-title-data.ts:581-594 | After a first mark was answered, a later mark of the same grab passes its check if and only if the first claim was handed back or its ten minutes, or ninety seconds after an unknown failure, have passed |
| `MarkFailed.RefusalHandsBack` | src/lib/arr-title-data.ts:589-591 | In any run, once a mark that holds its claim is definitely refused without a fallback to try, a new read of the grab passes its check, where no failure of it is in the history |
| `MarkFailed.FallbacksExactly` | src/lib/arr-title-data.ts:598-617 | A 404 or 405 to the first POST and a 400 or 415 to the second send the next form and touch no claim; any other answer, and any to the third, is the mark's |
| `CommandPacing.CountersMean` | src/lib/arr-command-status.ts:277-316 | The three counters of a watch still polling are the weighted polls, the failures since an answer, and the answerless reads past the cap |
| `CommandPacing.EveryWatchEnds` | src/lib/arr-command-status.ts:232-316 | Whatever the reads answer, a watch has ended by its 304th visible poll |
| `CommandPacing.TheBoundIsTight` | src/lib/arr-command-status.ts:232-316 | 303 visible polls can leave a watch polling |
| `CommandPacing.HiddenPollsNeverEnd` | src/lib/arr-command-status.ts:304-315 | From any point, hidden polls alone never end a watch |
| `CommandPacing.HowAWatchEnds` | src/lib/arr-command-status.ts:277-316 | Done, error and timeout each occur exactly on the reads the rule names, the timeout only past the cap, on an answer or the fifth answerless read; with the last states, the arr's own words, or the newest states and a wait of ten seconds where the arr is asked too often and two otherwise |
| `CommandPacing.ReadCommandsInChunks` | src/lib/arr-command-status.ts:214-227 | Chunks go out in order until one is no answer; the outcome is that one's, or every state in the order asked |
| `CommandPacing.ChunksMakeOneRead` | src/lib/arr-command-status.ts:206-227 | When every chunk answers, chunks of any size come to one whole read |
| `CommandPacing.SummarizeCommands` | src/lib/arr-command-status.ts:132-147 | Finished count, running status, and once all are over the first outcome, on the list from failed to completed, that any command has; beside it the first message of a state that decided the status |
| `CommandWatcher.AlwaysWired` | src/lib/arr-command-status.ts:362-461 | Every reachable watcher state keeps fresh handles and tokens, no shared handle, and at most one continuation a watch |
| `CommandWatcher.OneContinuationEach` | src/lib/arr-command-status.ts:397-434 | In every reachable state each live watch has exactly one timer or read pending, its token is its own, and nothing is live while disposed |
| `CommandWatcher.LetGoIsSilent` | src/lib/arr-command-status.ts:437-453 | From the moment its key is stopped or started again, or the watcher is stopped or disposed, a watch never comes back and is never asked about, updated or ended again, in any run |
| `CommandWatcher.NotLiveIsSilent` | src/lib/arr-command-status.ts:404-418 | A watch not live at any point of a run stays so, and whatever timer or read of it is still out adds nothing to what is reported |
| `CommandWatcher.EndedIsSilent` | src/lib/arr-command-status.ts:419-434 | Nothing of a watch follows its own end |
| `CommandWatcher.EndsByTheRule` | src/lib/arr-command-status.ts:397-434 | In any run a watch is finished only on an answer with every command over, times out only past the cap on an answer or the fifth answerless read, never on a hidden poll, and gives up only on a refusal or the fifth failure since an answer |
| `CommandWatcher.AlwaysFollowed` | src/lib/arr-command-status.ts:397-434 | A live watch's counters are the give-up rule's over the outcomes of its own polls, and the end it reports is the rule's on the last of them |
| `CommandWatcher.MergeMeans` | src/lib/arr-command-status.ts:387-395 | A read is an answer if and only if it names every id asked for; folding it in keeps what has ended, ends what the read shows as over, and covers every id in start order with the newest said of it |
| `CommandWatcher.AnAnswerIsTold` | src/lib/arr-command-status.ts:413-434 | In any run an answer that names every id asked about, for a live watch, is told at once over the whole watch: finished when all are over, else an update, or past the cap the timeout |
| `CommandWatcher.NoAnswerIsNotTold` | src/lib/arr-command-status.ts:407-434 | Any other read shows nothing: it is counted for what it is, a partial answer as a failed read, and stops the watch exactly where the rule says so, a refusal at once with the arr's own words |
| `CommandWatcher.ATimerAsks` | src/lib/arr-command-status.ts:397-412 | A live watch's timer asks about exactly the ids still open, in their order, or, hidden, about nothing |
| `CommandWatcher.AStartFollows` | src/lib/arr-command-status.ts:437-446 | A start follows its ids once each in the order first given, with nothing seen and a first timer set; disposed or without ids it follows nothing |
| `CommandWatcher.DisposedExactly` | src/lib/arr-command-status.ts:450-456 | Starts are refused exactly from a dispose until the next resume |
| `CommandWatcher.OthersAreLeft` | src/lib/arr-command-status.ts:377-453 | What is about another watch leaves a live one live, with what it has seen, its counters and its timer |
| `CommandWatcher.LettingGoCallsOff` | src/lib/arr-command-status.ts:377-381 | Letting a watch go calls off its timer |
| `CommandWatcher.ReportsAreTrue` | src/lib/arr-command-status.ts:387-434 | Over any run: a report covers each distinct id once in start order, a watch is finished at most once and only with every id over, nothing follows its end, and an id seen over keeps its state and is never asked about again |
| `CommandWatcher.AlwaysOpen` | src/lib/arr-command-status.ts:404-434 | A watch still live has an id that has not ended |
| `CommandWatcher.EveryWatchIsBounded` | src/lib/arr-command-status.ts:277-316 | In any run no watch asks more than 304 times |
| `CommandWatcher.Watcher.StartOn` | src/lib/arr-command-status.ts:437-446 | Start retires the key's watch, refuses when disposed or given no ids, and otherwise schedules a new run of the distinct ids, as the state machine's step |
| `CommandWatcher.Watcher.RetireOne` | src/lib/arr-command-status.ts:377-381 | Retiring one watch is the state machine's step |
| `CommandWatcher.Watcher.RetireEvery` | src/lib/arr-command-status.ts:447-449 | Stopping every watch in turn is the one step that stops them all |
| `CommandWatcher.Watcher.DisposeAll` | src/lib/arr-command-status.ts:450-453 | Disposing stops everything and refuses later starts |
| `CommandWatcher.Watcher.TimerFired` | src/lib/arr-command-status.ts:397-412 | A firing timer of a live watch counts a hidden poll or sends a read for the ids still open; of any other it does nothing |
| `CommandWatcher.Watcher.ReadAnswered` | src/lib/arr-command-status.ts:413-434 | An answer is folded in and concluded only for the run that asked |
| `CommandWatcher.Watcher.ConcludeWith` | src/lib/arr-command-status.ts:419-434 | A poll's outcome ends the watch with its reports, or updates and schedules the next poll |
| `CommandWatcher.Watcher.Merge` | src/lib/arr-command-status.ts:387-395 | The loop that folds a read into its watch computes the state machine's fold |
| `SaveQueue.LockTable.Enter` | src/lib/arr-system-data.ts:315-319 | A task takes its place behind the key's tail and becomes the tail |
| `SaveQueue.LockTable.Leave` | src/lib/arr-system-data.ts:320-324 | A settled task removes the key's entry only if no other has entered behind it |
| `SaveQueue.OneAtATimeInOrder` | src/lib/arr-system-data.ts:303-325 | In every interleaving no two tasks of a key run at once and none overtakes an earlier one |
| `SaveQueue.NothingBlocksTheNext` | src/lib/arr-title-data.ts:252-263 | Once all earlier tasks of the key have settled, failed or not, the next may begin |
| `SaveQueue.ATaskMaySettle` | src/lib/arr-system-data.ts:315-325 | From any point of a run a task whose turn has come can do any number of its remaining operations and then throw, or all of them and succeed, with no other task disturbed |
| `SaveQueue.EverythingDrains` | src/lib/arr-system-data.ts:315-325 | From any point of any run, with nobody new, every task can run to its end and leave, and then no key has an entry: nothing is ever stuck |
| `SaveQueue.EntriesAreUsed` | src/lib/arr-system-data.ts:320-324 | A key has an entry only while one of its tasks is still in; without one all of its tasks are over |
| `SaveQueue.AlwaysSerial` | src/lib/arr-system-data.ts:303-325 | Whatever the interleaving and whatever fails, each resource is what its tasks make of it one after another in arrival order |
| `SaveQueue.SaveMeans` | src/lib/arr-system-data.ts:363-406 | A save landed puts just its flags over what was there; unlanded it changes nothing |
| `SaveQueue.EditsAreCareful` | src/lib/arr-title-data.ts:300-316 | Every save and every edit reads a resource just before it puts it back whole; an edit writes its fields, then its seasons |
| `SaveQueue.EditMeans` | src/lib/arr-title-data.ts:284-316 | An edit stopped at any point has made exactly the changes it had written, each over those before: its season switches never revert its editor's write |
| `LandedWrites.NothingIsLostExactly` | src/lib/arr-system-data.ts:303-312 | Over any run, late landings included: every resource always reads as the landed writes in the order they landed, if and only if every body put back whole agrees with what landed since it was read, but in what it changes |
| `LandedWrites.NoUpdateIsLost` | src/lib/arr-system-data.ts:303-325 | In such a run a field reads as the last landed write that named it, and one no write named as at the outset, whatever mix of saves and edits ran or failed part-way |
| `LandedWrites.OnTimeIsHarmless` | src/lib/arr-title-data.ts:243-263 | With no late landing every run is such a run, and a key's writes land in the order its tasks arrived |
| `LandedWrites.TheLogIsTrue` | src/lib/arr-title-data.ts:284-316 | What has landed is exactly each task's own writes as far as it came, an edit's editor write without its season write among them |
| `LandedWrites.MayStillLand` | src/lib/arr-system-data.ts:310-312 | A task given up on before a write of its own may have that write land afterwards, once, from what it had read, whatever has landed since |
| `LandedWrites.LateAfterTheNext` | src/lib/arr-system-data.ts:310-312 | A save that lands after the next one: a run in which all that landed is kept exactly when the late body holds or sets it |
| `LandedWrites.LateBeforeTheNext` | src/lib/arr-system-data.ts:310-312 | A save that lands between the next one's read and its write is overwritten, but for what the next body holds or sets |
| `ProviderSave.ReadBackAfterTimeout` | src/lib/arr-system-data.ts:268-292 | At most seven reads; every read before the last succeeded without the change; the copy answered is the first with the change, the last one asked for, or the one before a read that failed |
| `ProviderSave.SaveProvider` | src/lib/arr-system-data.ts:363-406 | Exactly when a save goes out, with and without the arr's test, and exactly when each answer is given: what the arr took is "saved", a testing save that timed out is "saved" when it can be read back, and "rejected", "failed", "warnings" and "unsupported" each on just the replies that mean it; no unsupported use is switched on, and the body is the arr's own with only the flags changed |
| `ProviderSave.WithEnabled` | src/lib/arr-system.ts:335-339 | Each switched flag reads as asked, and everything else of the resource as it was |
| `ProviderSave.Unsupported` | src/lib/arr-system.ts:347-353 | A use is refused exactly when the change switches it on and the indexer says it cannot do it; RSS is named first |
| `ProviderSave.Applied` | src/lib/arr-system.ts:359-363 | The arr's copy has the change exactly when making it again would change nothing |
| `FileDeletes.DeleteTitleFiles` | src/lib/arr-title-data.ts:411-446 | Every chosen file is asked for, one by one up to the first failure or all at once; what is answered as deleted is gone, where the files could be read again it is exactly what is gone, with an error exactly while a chosen file is left; an outright failure means nothing is gone |
| `FileDeletes.DeleteOneByOne` | src/lib/arr-title-data.ts:431-446 | The loop stops at the first delete that fails, with the ones before it gone, and answers what is gone then |
| `FileDeletes.DeletedAfterFailure` | src/lib/arr-title-data.ts:387-401 | After a failure the confirmed and the no longer listed ids count as deleted, in the order asked; none is the arr's failure |
| `FileDeletes.GoneInOrder` | src/lib/arr-title-data.ts:387-401 | Just the confirmed and the no longer listed of the chosen ids, each where it was chosen |
| `Accounts.PurgedEmailNamesItsRow` | src/lib/account-lifecycle.ts:47-53 | A tombstone address belongs to one row only |
| `Accounts.HealExactly` | src/lib/account-lifecycle.ts:164-188 | After the boot heal every scrubbed row is disabled if and only if no row already marked was active; scrubbed rows are the marked ones; healing again changes nothing |
| `Accounts.Database.DeactivateUserInTx` | src/lib/account-lifecycle.ts:95-122 | Run alone: refused for a row that is gone, for an admin already disabled or the last active one, with nothing changed; otherwise disables the row and scrubs nothing, and an active admin remains |
| `Accounts.Database.ReactivateUser` | src/lib/account-lifecycle.ts:125-155 | Re-enables exactly a disabled row that is not scrubbed by marker or shape |
| `Accounts.Database.PurgeUserDataInTx` | src/lib/account-lifecycle.ts:192-312 | Run alone: purges exactly a disabled, unmarked row and its data, answers a marked one untouched, refuses the rest with nothing changed |
| `Accounts.Database.MarkLegacyPurgedAccounts` | src/lib/account-lifecycle.ts:164-188 | Every row that is marked, or whose address is not its own tombstone, is left as it was; an unmarked tombstone row is marked and disabled and otherwise as it was; no row comes or goes |
| `Accounts.Database.SetRole` | src/app/api/admin/users/[id]/route.ts:459-499 | Run alone: a role is set unless the row is gone or it is the demotion of the last active admin, a disabled admin being demoted freely |
| `Accounts.DisablesAlone` | src/app/api/admin/users/[id]/route.ts:557-572 | With nobody in between, the statements of a removal disable the row unless it is a disabled or the last active admin, and change nothing else |
| `Accounts.DisablesItselfAlone` | src/app/api/profile/route.ts:80-88 | So do those of the self-service route, which reads the role first, takes the lock for an admin only, and does nothing for a disabled row |
| `Accounts.SetsRoleAlone` | src/app/api/admin/users/[id]/route.ts:459-499 | With nobody in between, a role change's statements set the role unless that demotes the last active admin |
| `Accounts.ReactivatesAlone` | src/lib/account-lifecycle.ts:125-155 | With nobody in between, a re-enabling's statement re-enables exactly a disabled row that is not scrubbed |
| `Accounts.PurgesAlone` | src/lib/account-lifecycle.ts:192-312 | With nobody in between, a purge's statements scrub exactly a disabled, unmarked row and drop its data |
| `Accounts.PurgedIsAlwaysDisabled` | src/lib/account-lifecycle.ts:192-312 | In every interleaving of statements a row scrubbed by marker or shape is disabled |
| `Accounts.PurgedForGood` | src/lib/account-lifecycle.ts:125-155 | Once scrubbed, a row is never un-scrubbed nor re-enabled, whatever runs later |
| `Accounts.NoPartialScrub` | src/lib/account-lifecycle.ts:279-312 | However many purges lose their race or fail, private data is gone only with its row scrubbed, and a row scrubbed since the start has none left |
| `Accounts.LossExactly` | src/lib/account-lifecycle.ts:95-122 | At any point of any run with an active admin, a step leaves none if and only if it commits the deactivation or demotion of the only one, and that is stale or its count was overtaken by a stale one |
| `Accounts.AnAdminRemains` | src/app/api/admin/users/[id]/route.ts:459-499 | If no deactivation commits against a row that became an active admin's after its role was read, an instance with an active admin has one throughout, whatever is disabled, demoted, purged and re-enabled at once |
| `Accounts.AnAdminRemainsExactly` | src/app/api/admin/users/[id]/route.ts:459-499 | An instance with an active admin has one throughout a run if and only if no such commit comes in it |
| `Accounts.UnderTheLockAnAdminRemains` | src/app/api/admin/users/[id]/route.ts:557-572 | With the role read under lock 42 the hypothesis always holds, so an admin always remains |
| `Accounts.AnUnlockedReadLosesTheLastAdmin` | src/app/api/profile/route.ts:80-88 | A run with a role read without the lock that ends with no active admin |
| `Accounts.AnOvertakenCountLosesTheLastAdmin` | src/app/api/admin/users/[id]/route.ts:477-488 | A run in which a demotion that read the role and counted under the lock takes the last active admin, its count overtaken by the self-service route |
| `HistoryRows.GroupHistoryEvents` | src/lib/arr-history.ts:275-338 | The loops over maps, runs and the list build the specified rows |
| `HistoryRows.RunOfMeans` | src/lib/arr-history.ts:251-300 | Two records have one run exactly when they are one download's and every two successive records by id between them continue; a run is just the records that belong with it |
| `HistoryRows.RowsPartition` | src/lib/arr-history.ts:302-320 | Every record is in exactly one row, and two share a row exactly when they belong together |
| `HistoryRows.RowsAreMaximalRuns` | src/lib/arr-history.ts:248-261 | Successive records of a download share a row exactly when of one kind and dated within five minutes: rows are runs, and not cut short |
| `HistoryRows.LeadAndMarks` | src/lib/arr-history.ts:302-335 | A row's lead is its newest record; the page marks sit on folded rows holding the list's first or last record |
| `HistoryRows.RowsRunById` | src/lib/arr-history.ts:291-300 | A row's records stand by id |
| `HistoryRows.RowsInListOrder` | src/lib/arr-history.ts:263-274 | Rows stand in the order of their first records |
| `HistoryRows.OrderDoesNotMatter` | src/lib/arr-history.ts:275-338 | With distinct ids, the same records in any list order fold into the same rows with the same leads |
| `QueueRows.FoldQueueRecords` | src/lib/arr-queue.ts:373-399 | The loop over records with its maps builds the specified rows, episodes sorted |
| `QueueRows.EachIdInOneRow` | src/lib/arr-queue.ts:366-399 | Each distinct valid id is in exactly one row, once; no other id is in any |
| `QueueRows.RepeatsDoNotMatter` | src/lib/arr-queue.ts:376-386 | A record met again, on whatever page, changes nothing |
| `QueueRows.RowsAreDownloads` | src/lib/arr-queue.ts:366-395 | Two records, each the first met of its id, have their ids in one row exactly when they are one Sonarr download's of one series |
| `QueueRows.RowMeans` | src/lib/arr-queue.ts:338-365 | A row stands for the records it names, each as first met: it lists their distinct episodes in order, flags when any does, shows the first of the largest sizes and the worst tracked state |
| `QueueRows.RowsInOrderMet` | src/lib/arr-queue.ts:373-399 | Rows stand in the order their first records were met, and a row names its ids so |
| `QueueRows.SelectLiveIds` | src/lib/arr-queue.ts:500-518 | The selection loop sends the first id of each chosen row in row order |
| `QueueRows.SentExactly` | src/lib/arr-queue.ts:478-518 | What is sent is one id for each eligible row the posted ids touch, none twice |
| `QueueRows.PackIsOneDownload` | src/lib/arr-queue.ts:465-518 | Posting a whole folded row sends what posting any one of its ids sends: its first id, or nothing where only pending rows count and it is not |
| `BlocklistRemoval.RemoveFromBlocklist` | src/lib/arr-history-data.ts:136-178 | Succeeds exactly when every id is among the newest 20,000 or on the viewed page or a neighbour; then sends the ids once and answers their entries in order; otherwise sends nothing; at most 23 pages are read |
| `BlocklistRemoval.Scan` | src/lib/arr-history-data.ts:154-163 | The scan stops at the list's end, at its cap, or with nothing wanted, having seen just what it claims; no page is read unless some id was still not seen before it |
| `BlocklistRemoval.PickedEntryIsFound` | src/lib/arr-history-data.ts:164-174 | An entry picked on a viewed page is found, however deep, when at most a page of entries came and at most a page went above it |
| `Disks.OnePlaceOnePath` | src/lib/arr-system.ts:566-577 | The comparable path is settled after one pass and ignores the separator, trailing separators and, on a drive, case |
| `Disks.TwoPlacesTwoPaths` | src/lib/arr-system.ts:566-577 | Two paths compare equal exactly when, past separators and trailing ones, they are the same, or both on a drive and the same but for case |
| `Disks.TrimTrailing` | src/lib/arr-system.ts:570-575 | The trimming loop removes every trailing separator but a lone one |
| `Disks.Memo.ComparableDisks` | src/lib/arr-system.ts:586-603 | The remembered list always equals recomputing it, whatever was edited in place in the list or in a disk |
| `Disks.HoldsByWholeSegments` | src/lib/arr-system.ts:606-618 | A disk holds a folder exactly when its path's segments begin the folder's |
| `Disks.EquallyLongHoldersAgree` | src/lib/arr-system.ts:606-612 | Two equally long holders of a folder have one comparable path |
| `Disks.DiskFor` | src/lib/arr-system.ts:614-621 | The disk chosen holds the folder by the disks' paths as they read now, none that does is longer, and of two with its path it is the first; none is chosen exactly when none holds |
| `Disks.RootDiskIn` | src/lib/arr-system.ts:649-659 | The nearest holder is taken exactly when the free spaces are within the larger of a gigabyte and a hundredth of the disk's, or one is unknown and it is not the catch-all root of another folder; a farther disk is never taken instead |
| `CalendarRows.CalendarDays` | src/lib/arr-calendar-days.ts:267-313 | Each (service, title, day) triple has one row, made of just its entries, on its own day once; the number of rows is the number of triples |
| `CalendarRows.RowsAreTitles` | src/lib/arr-calendar-days.ts:251-288 | Over the days built: two entries are in one row if and only if they are of one service, one day and one title, movies by TMDB id, episodes by their series' shared id and numbers, and otherwise by the arr's own number on one instance |
| `CalendarRows.RowCells` | src/lib/arr-calendar-days.ts:289-300 | A row has one cell for each of its entries' cell keys, made of just those entries |
| `CalendarRows.CellsAreSearches` | src/lib/arr-calendar-days.ts:289-292 | Two entries of a row are in one cell exactly when of one instance, one arr id and one episode id |
| `CalendarRows.CellMeans` | src/lib/arr-calendar-days.ts:289-300 | A cell shows the best-ranked of its entries, the first of them, with its progress, and flags when any does |
| `CalendarRows.CellShowsTheFirst` | src/lib/arr-calendar-days.ts:243-249 | A cell shows the first status, on the list from missing to unmonitored, that any of its entries has |
| `CalendarRows.RowMeans` | src/lib/arr-calendar-days.ts:285-288 | A row stands at its earliest entry and lists exactly its entries' kinds, none twice |
| `CalendarRows.RowIsFilledIn` | src/lib/arr-calendar-days.ts:285-286 | A row's TMDB id and poster are the first known among its entries |
| `CalendarRows.OrderDoesNotMatter` | src/lib/arr-calendar-days.ts:267-313 | The same entries in any order make the same rows, instants, kinds and cells, in status and in flag |
| `CalendarRows.ProgressExactly` | src/lib/arr-calendar-days.ts:293-300 | A cell's progress is the same in every order if and only if its best-ranked entries share one |
| `CalendarRows.ProgressCanDependOnOrder` | src/lib/arr-calendar-days.ts:293-300 | Two downloads of one cell at different points show whichever comes first |
| `CalendarWindow.PadsExactly` | src/lib/arr-calendar.ts:93-106 | No movie date on the viewer's days is lost in any zone if and only if the pads are at least 12 hours before and 14 after |
| `CalendarWindow.SonarrMisreadingExactly` | src/lib/arr-calendar.ts:85-92 | Sonarr's window survives a host-local misreading exactly up to its 14 hours |
| `CalendarWindow.RadarrCalendarEntries` | src/lib/arr-calendar.ts:159-202 | The dates inside the window of the first 100,000 movies, at most the first 10,000 of them |
| `CalendarWindow.ShownExactly` | src/lib/arr-calendar-days.ts:46-71 | From the viewer's days to the arr and back, within the caps, the page shows exactly the movie dates on the viewer's own days |
| `CalendarWindow.EpisodesShownExactly` | src/lib/arr-calendar.ts:85-106 | Whatever the host's offset up to 14 hours, an episode is asked for and shown exactly when it airs on the viewer's days |
| `SearchPlan.PlanSeriesSearch` | src/lib/arr-missing.ts:282-303 | The loops compute the plan over every season with something to search, in ascending order |
| `SearchPlan.EachMissingOneWay` | src/lib/arr-missing.ts:263-303 | Each missing episode with an id is asked for exactly one way: its season whole, or by its id |
| `SearchPlan.NothingElseIsAsked` | src/lib/arr-missing.ts:263-303 | A planned season has two missing episodes and no file in it, a listed id is a missing episode's of a season not planned, and seasons ascend |
| `SearchPlan.AskedExactly` | src/lib/arr-missing.ts:263-303 | A season is searched whole if and only if two or more missing episodes of it have an id and no file of it is on disk; an id is listed if and only if it is a missing episode's of a season not searched whole |
| `SearchPlan.ListedOnce` | src/lib/arr-missing.ts:295-301 | No id is listed twice |
| `SearchPlan.ListedInOrder` | src/lib/arr-missing.ts:295-301 | Ids are listed season by season, and within one as its rows come |
| `SearchPlan.ARepeatedRowPlansItsSeason` | src/lib/arr-missing.ts:285-299 | Were a row repeated, one missing episode would plan its season |
| `SnapshotStore.Store.RememberSnapshot` | src/lib/arr-snapshot.ts:134-154 | An answer over 4 MiB leaves no copy; any other is the last entry, with what is said of it and, of what is not, what its key had; entries go from the front until the bytes fit, and the byte count stays the entries' sum |
| `SnapshotStore.MeasuredInUtf8` | src/lib/arr-snapshot.ts:140 | An answer's size is the length of its UTF-8 encoding, each character of which can be read back from its bytes |
| `SnapshotStore.Store.ReadSnapshot` | src/lib/arr-snapshot.ts:157-168 | A hit is exactly an entry of the key no more than a day old; it moves to the back with its view noted and nothing else changed; an older one is dropped; the rest stand |
| `SnapshotStore.Store.Drop` | src/lib/arr-snapshot.ts:127-132 | Dropping a key removes its entry and its bytes |
| `SnapshotStore.Store.ClearArrSnapshots` | src/lib/arr-snapshot.ts:177-180 | A clear leaves nothing |
| `SnapshotStore.EvictsTheShortestPrefix` | src/lib/arr-snapshot.ts:149-153 | What goes is the shortest prefix whose going lets the rest fit |
| `SnapshotStore.AlwaysInOrderOfUse` | src/lib/arr-snapshot.ts:145-167 | After any run what is held stands in the order in which it was last kept or painted |
| `SnapshotStore.EvictsTheLeastRecentlyUsed` | src/lib/arr-snapshot.ts:149-153 | In any run, what is evicted to make room was last used before everything that stays |
| `SnapshotStore.JustStoredStays` | src/lib/arr-snapshot.ts:134-154 | The entry just stored is never evicted, and nothing is while all fits |
| `SnapshotStore.AlwaysWithinBounds` | src/lib/arr-snapshot.ts:38-42 | After any run each key has one entry, each entry is within 4 MiB, and all are within 32 MiB |
| `SnapshotStore.HitsAreLatest` | src/lib/arr-snapshot.ts:134-168 | A hit is the last body handed over for its key since the last clear, at most a day old |
| `SnapshotStore.ALiveAnswerIsKept` | src/lib/arr-snapshot.ts:221-242 | What a page opened live answers is kept as just viewed |
| `SnapshotStore.ARefreshIsKept` | src/lib/arr-snapshot.ts:304-319 | A refresh starts exactly for a kept view under its own address; its answer is kept, not as a view, and dropped where a clear came before its check |
| `SnapshotStore.ViewsAreOpeningsExactly` | src/lib/arr-snapshot.ts:144-147 | What is held knows when its page was last opened, if and only if no refresh finds its view gone between its check and its keep |
| `SnapshotStore.ClearsWinExactly` | src/lib/arr-snapshot.ts:316-318 | At every moment of a run all that is held was asked for since the last clear, if and only if no read out at a clear hands over an answer small enough to keep |
| `SnapshotStore.NothingComesBackExactly` | src/lib/arr-snapshot.ts:221-318 | All that is held was opened live since the last clear, if and only if no live read out at a clear, and no refresh checked before it, keeps an answer for a page not opened since |
| `SnapshotStore.ALiveReadOutlivesAClear` | src/lib/arr-snapshot.ts:221-239 | A page being opened during a clear is kept after it: nothing checks a live read |
| `SnapshotStore.AClearBetweenCheckAndKeepIsLost` | src/lib/arr-snapshot.ts:233-242 | A clear between a refresh's check, which passed, and its keep is undone by the keep |
| `SnapshotStore.AReopeningHidesTheClear` | src/lib/arr-snapshot.ts:316-318 | A page opened again after a clear lets the check pass, and the refresh puts what it read before the clear over the newer answer |
| `HealthNotify.Memory.ForwardArrHealthEvent` | src/lib/arr-health-notify.ts:60-90 | A delivery is forwarded unless it has no message or repeats the check's last state inside the window; then the memory prunes, evicts and records it |
| `HealthNotify.AtMost500AreTracked` | src/lib/arr-health-notify.ts:77-83 | After any run at most 500 checks are tracked, each once |
| `HealthNotify.LastWordIsRight` | src/lib/arr-health-notify.ts:5-14 | The last state forwarded for a check is the last one delivered for it |
| `HealthNotify.RepeatsOnlyAfterAPush` | src/lib/arr-health-notify.ts:75-83 | With a clock that never runs back, one state is forwarded twice inside ten minutes only if its live entry was pushed out by 500 live others |
| `HealthNotify.ForwardedExactly` | src/lib/arr-health-notify.ts:75-89 | With such a clock a delivery is forwarded if and only if it is the check's first, changes its state, comes ten minutes or more after it was last forwarded, or its live entry was pushed out since |
| `HealthNotify.AlwaysInOrder` | src/lib/arr-health-notify.ts:82-83 | After any run the checks stand in the order in which they were last forwarded |
| `HealthNotify.PushesTheOldest` | src/lib/arr-health-notify.ts:77-81 | A live entry that is pushed out was forwarded before every one that stays |
| `HealthNotify.NoMoreThanNeeded` | src/lib/arr-health-notify.ts:77-81 | Nothing goes while fewer than 500 are tracked or the check is known; else what has aged out goes, and a live entry only to leave exactly 500 |
| `SettingKeys.KeysCollideExactly` | src/lib/arr-instances.ts:66-92 | Two settings of valid instances share a key exactly when they are one setting, or the default ExternalUrl and the Url of "external" |
| `SettingKeys.KeysDifferWithoutExternal` | src/lib/arr-instances.ts:66-92 | With that slug left out, keys tell settings apart |

## Left out

- HTTP, Prisma, PostgreSQL and the clock themselves: they are steps, answers and hypotheses of the models.
- React components and the other hosts: the watcher's host is the sequence of events it sends.
- CommandWatcher.Watcher.ScheduleNext: the delay of the next poll is not part of the watcher's state; `CommandPacing` decides it.
- Accounts.Database.DeactivateUserInTx: the deletion of sessions and the revocation instant are not modelled, only that nothing is scrubbed.
- Accounts.Database.ReactivateUser: the calendar feed link it also clears is not modelled.
- Accounts.Database.PurgeUserDataInTx: the many private child tables are one set of accounts that still have private data; the audit-trail scrub is not modelled.
- HistoryRows.GroupHistoryEvents: a row's records are kept by id; their season and episode order, the episode list and the season list shown are not modelled.
- QueueRows.FoldQueueRecords: names, messages, labels and quality fields, and the display sort of the rows, are not modelled.
- CalendarRows.CalendarDays: the display order of days and rows, which depends on locale string ordering, is not modelled.
- Disks.OnePlaceOnePath: lower-casing is that of ASCII letters; the program's also covers other scripts.
- SnapshotStore.Store.RememberSnapshot: text is a sequence of Unicode characters, so lone surrogates have no byte length here; `snapshotKey` and the choice of views due for a refresh are not modelled.
- CalendarWindow.RadarrCalendarEntries: only each movie's dates are kept; statuses and the queue overlay are not modelled.
- BlocklistRemoval.RemoveFromBlocklist: a list that changes between page reads is not modelled; the shift since the page was viewed is.
- Season switches, editor writes and provider flags in `SaveQueue` and `LandedWrites` are changes of named fields of one resource.
- `createLoadGate`, `judgeListing`, `missingEpisodes`, the file and rename lists, the auto-route predicate and the field-by-field projections would add only easy members.
- Text clean-up and secret masking, which rest on regular expressions, are not modelled.
