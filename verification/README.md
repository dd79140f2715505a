# A verified model of the harness's scheduler, sweep and published texts

The harness works through a queue of issues with a language model, inside a run window and under
several limits, and takes its orders from comments. This project models the parts of it that decide
*when* something runs, *which* comment is acted on, and *what survives* being written to a file or an
issue and read again, and proves what those parts are for.

`dafny verify dfyconfig.toml` checks everything.

| file | what it models |
|---|---|
| `RunWindow.dfy` | the daily or weekly run window: endpoints, openings, length |
| `Ledgers.dfy`, `LedgerFacts.dfy` | the ledger: rate limit, usage, block, carry, owed and planning records, cursors; and its answers said of what it stores |
| `Dispatcher.dfy`, `PlanRules.dfy` | the plan, and its rules said of the candidates' own fields |
| `Relay.dfy` | the relay, which samples the plan at four instants |
| `OwedWork.dfy`, `PlanningWork.dfy` | what a run window, and a planning run, owe over a run |
| `Keywords.dfy`, `SweepCoverage.dfy` | one comment sweep, and exactly which comments it collects |
| `CommandLevels.dfy` | which threads a sweep asks for, the level gate, and what is counted against whom |
| `SweepRuns.dfy`, `SweepPromises.dfy`, `HeldAgain.dfy` | what becomes of each command, and what a run of sweeps keeps |
| `DeliveryCap.dfy`, `QuietWait.dfy` | the open-delivery cap and the quiet check, against their worlds |
| `Persistence.dfy` | the ledger's file |
| `FrontMatter.dfy`, `FrontMatterExact.dfy`, `FrontMatterTraps.dfy` | the proposal's front matter, its reader and its stripping |
| `JsonStrings.dfy` | a reader of the JSON strings the front matter is written in |
| `QueueBlock.dfy`, `Fences.dfy` | the spliced queue block, the backtick fences |
| `TrustLines.dfy`, `Trust.dfy` | the trust file and the gate |
| `ProtectedPaths.dfy`, `CommitWalk.dfy`, `GitPaths.dfy` | the protected paths, the commit walk that looks for them, and git's quoting |
| `Schedule.dfy` | the next scheduled sweep |
| `Prelude.dfy`, `Strings.dfy` | shared vocabulary and Python's string operations |

Time is whole seconds, with 0 on a Monday 00:00 UTC. A stored text is either the instant it reads as
or words that do not read (`Ledgers.Text`). Everything GitHub, the model and the clock may answer is a
parameter (`Keywords.World`, `DeliveryCap.Turn`, `QuietWait.World`, `SweepRuns.Results`), so each
theorem holds whatever they answer, under the assumptions its `requires` names.

## Results about the code

Where a promise does not hold as it is told, the project gives an input on which it fails and says
for all inputs when it holds.

- The relay promises the soonest time at which a run would start. It comes no later than a
  startable instant exactly when no limit refuses at some sample by then (`Relay.WakeAt`), and so
  whenever the limits are clear at the floor, when its answer is the soonest instant and None says there
  is none, or were clear a minute before. What it can miss lies within a minute of the end of a limit
  or a session (`Relay.HalfMinuteIsMissed`). `Relay.PlanningWakeAt` is the same. It leans
  on an owed record having begun (`Relay.UnbegunRecordIsMissed`), which `_owe_window` guarantees
  (`OwedWork.OwedSinceIsPast`).
- The delivery cap holds over a whole run whatever closed branches the listing still shows, but one: a
  single turn passes the bound exactly when the item's own branch is listed though closed and the rest
  meets the bound (`DeliveryCap.PassesExactly`, `DeliveryCap.StaleListingPassesTheCap`).
- A comment runs at most once over any run of sweeps in which no sweep begins under the stored limit
  with a held comment unseen (`SweepRuns.AtMostOnce`), whether the sweeps return, raise as they read or
  are left by an exception in the batch. Only a sweep that raised as it read, with no limit, can leave
  one unseen (`SweepRuns.CarefulRuns`), and after it a limited sweep may run a comment it still holds
  (`HeldAgain.RaiseRunsItTwice`); one sweep breaks the promise exactly then (`SweepRuns.OneStep`).
- Every comment a returning sweep collects is acted on or held. An exception that leaves the batch loses
  exactly the comments after the one it came from (`SweepRuns.LostExactly`), and for good: they are seen,
  nothing holds them, and no later sweep collects them (`SweepRuns.LostForGood`).
- Not every command is answered: a comment's third command says nothing when its second met the model's
  limit. `SweepRuns.SilentExactly` says exactly which commands are silent.
- A held comment comes back when its thread reads (`HeldAgain.HeldIsCollectedLater`). When it does not,
  the first sweep to return with no limit lets go of it, neither seen nor collected, though its author was
  told it runs again (`SweepPromises.UnreadHeldIsDropped`).
- A first feed that fails costs what only its own three-hour lookback held
  (`SweepPromises.FailedFirstFeedLosesTheHour`); once a feed has come, no failure opens a gap.
- `json.dumps(ensure_ascii=False)` leaves three characters alone that `str.splitlines` ends a line at,
  and `validate_proposal` does not ask for them. A proposal it accepts can make the dispatcher read a
  dependency that is not there (`FrontMatterTraps.SeparatorMisleads`), and another leaves more than its
  body when it is stripped (`FrontMatterTraps.SeparatorCuts`). `FrontMatterExact.ReadsBackExactly` and
  `FrontMatterExact.BodySurvivesExactly` say which proposals read back and which bodies survive.
- Git prints an author's email raw. A record separator or a line break in a stranger's email can make the
  commit walk take the commit for the harness's and name an end that is no commit
  (`CommitWalk.SeparatorForgesACommit`). The walk is right exactly when it reached the cap, or the root, or
  the email below the harness's run, cut at its first line break and stripped, is none of the harness's
  (`CommitWalk.WalkReadsWhatWasPrinted`, `CommitWalk.EmptyAnswerVouches`). It never drops a commit of the
  harness's, so this hides no protected path (`GitPaths.NothingProtectedPasses`).
- The characters `json.dumps` leaves alone also split a path the walk reads. That never hides a protected
  path, quoted by git or not, and may report one that is not (`CommitWalk.SeparatorIsReported`).

## Model

| member | source | states |
|---|---|---|
| RunWindow.WindowFunctionsAgree | harness/config.py:798-857 | for every daily or weekly window, wrapping or not: the opening is no later than now and the next one later, both are openings, and the window is open exactly for its length after each opening |
| RunWindow.EqualEndsNeverOpen | harness/config.py:798-819 | equal endpoints give length 0 and a window that is never open |
| RunWindow.LatestOpening | harness/config.py:829-847 | an opening less than a period before now is the one reported |
| RunWindow.OpenLookingBack | harness/config.py:798-847 | from an open instant back to any earlier one, either the window was open all along or it opened in between and was open there |
| RunWindow.NextOpeningIsTheFirst | harness/config.py:829-847 | any opening in the day after now is the reported next one |
| RunWindow.EndpointTextIsExact | harness/config.py:784-795 | an endpoint is read from its own text in any case and with any space around it, and from no other text |
| RunWindow.UnpairedIsOpen | harness/config.py:808-812 | an endpoint that does not parse, or a weekday beside a daily one, leaves the window open and not daily; a daily window is two daily endpoints |
| Ledgers.NormaliseUsageIdempotent | harness/ledger.py:92-118 | normalising a normalised usage changes nothing, at any later time |
| Ledgers.BlockUntil | harness/ledger.py:142-164 | a block ends after now and never later than its sessions take, counted from now, for any reading |
| Ledgers.BlockCoversItsSessions | harness/ledger.py:142-164 | a block of n sessions leaves more than n - 1 whole ones, and ends with a session when the running one's reset is known |
| Ledgers.RetryThreadsSorted | harness/ledger.py:542-546 | the held comments come back earliest first, each exactly as often as it is held |
| Ledgers.RetryThreadsIdempotent | harness/ledger.py:542-546 | what is sorted stays as it is |
| Ledgers.RetryKeepsIds | harness/ledger.py:542-546 | sorting keeps the held ids and holds no comment twice |
| Ledgers.NotReleasedHolds | harness/ledger.py:548-555 | a release drops exactly the released ids |
| Ledgers.HoldingIds | harness/ledger.py:529-540 | holding adds exactly one id and never holds a comment twice |
| Ledgers.Ledger.Empty | harness/ledger.py:716-723 | a new ledger is valid and holds nothing |
| Ledgers.Ledger.Record | harness/ledger.py:180-189 | one call more is counted, and the history keeps the last 500 |
| Ledgers.Ledger.SetRateLimited | harness/ledger.py:193-194 | only the stored limit changes |
| Ledgers.Ledger.ObserveUsage | harness/ledger.py:207-232 | the window after an observation, with the weekly roll; a non-observation changes nothing |
| Ledgers.ObservationKeepsTheRest | harness/ledger.py:207-232 | an observation moves nothing but the usage, unless the week turned over: then the window begins at a reset already past, with no calls |
| Ledgers.BlockOutlivesObservations | harness/ledger.py:328-352 | no later observation moves a stored block |
| LedgerFacts.SessionIs | harness/ledger.py:245-267 | the session counts as used to the utilization last read, unless it was read before the window began or its reset has come |
| LedgerFacts.RollsExactly | harness/ledger.py:207-232 | an observation begins the window again at the old weekly reset, with no calls, exactly when that is past and another is observed |
| LedgerFacts.ResetIs | harness/ledger.py:207-232 | the reset a window was observed with is its text, when it says anything |
| LedgerFacts.NormalisedWindow | harness/ledger.py:92-118 | a usage window that is an object is kept, its utilization a number or nothing and its reset under the one spelling or the other; one that is not goes |
| LedgerFacts.NormalisedStamp | harness/ledger.py:92-118 | the time of the observation is what it says, else now, and is left out when neither is known |
| LedgerFacts.NormalisedRest | harness/ledger.py:92-118 | whatever else a usage says stays as it is |
| Ledgers.Ledger.RequestBlock | harness/ledger.py:328-352 | the grant is measured once, from the reset as then observed, and stored |
| Ledgers.Ledger.Owe | harness/ledger.py:382-398 | items owed until the same opening join, a later end starts a new record, an earlier one changes nothing |
| LedgerFacts.OweMeans | harness/ledger.py:382-398 | which of the two ends is later decides: items join a record of the same end, replace one of a sooner end and leave one of a later end alone |
| LedgerFacts.OwedIs | harness/ledger.py:426-437 | an item is owed from the record's beginning up to its end, and not at it |
| Ledgers.KeepRecord | harness/ledger.py:415-424 | the items in both stay owed, between the same two ends, and the record goes exactly when none is left; an owed proposal's record likewise |
| PlanningWork.OweProposals | harness/__main__.py:1860-1868 | after a planning dispatch exactly the queued items are owed, whatever was owed before |
| PlanningWork.OwesExactly | harness/ledger.py:441-480 | over any run of planning dispatches, rankings and attempts exactly the outstanding items are owed: queued once, and since then queued, ranked and not attempted |
| PlanningWork.RecordRunsOneDay | harness/ledger.py:441-456 | a record runs for one day from a dispatch, however often it is dispatched again |
| PlanningWork.Planned | harness/ledger.py:478-480 | an attempt leaves everything owed but its item |
| Ledgers.Ledger.Force | harness/ledger.py:484-492 | an item is forced at most once |
| Ledgers.Ledger.Unforce | harness/ledger.py:498-502 | the exemption is spent |
| Ledgers.Ledger.MarkSeen | harness/ledger.py:519-522 | an id is seen at most once |
| Ledgers.Ledger.Unsee | harness/ledger.py:524-527 | exactly that id is no longer seen |
| Ledgers.Ledger.HoldForRetry | harness/ledger.py:529-540 | a comment is held at most once, where it was first held from |
| Ledgers.Ledger.ReleaseRetryThreads | harness/ledger.py:548-555 | exactly the released entries go, the rest stay earliest first |
| Ledgers.Ledger.CountDenied | harness/ledger.py:557-559 | one refusal more for that handle alone |
| Persistence.LoadsWhatWasSaved | harness/ledger.py:577-714 | every ledger loads as it was saved, its held comments earliest first and a usage that is no observation gone |
| Persistence.LoadsExactly | harness/ledger.py:686-692 | a file loads exactly when its schema is the number one |
| Persistence.BareFileIsEmpty | harness/ledger.py:693-714 | a file that says nothing else is an empty ledger whose window begins on 1 January 1970, a Thursday |
| Persistence.LoadedUsageIsStored | harness/ledger.py:700-704 | whatever a file holds, the usage it loads is in the one shape |
| Persistence.SavedAgainIsTheSame | harness/ledger.py:577-685 | a second save writes the same file |
| Persistence.SettledIs | harness/ledger.py:577-714 | all a save and a load change: a usage in its shape or gone, the held comments earliest first, an empty pruning time gone |
| Persistence.WindowKeysWritten | harness/ledger.py:577-639 | which facts of a window a save writes: three always, the usage when it says something, each record when there is one |
| Persistence.CursorKeysWritten | harness/ledger.py:640-681 | which cursors a save writes: three always, each of the rest once it holds something |
| Persistence.AnyFileSettles | harness/ledger.py:577-714 | any file that loads is written the same from its first save on |
| Persistence.SaveAndLoad | harness/ledger.py:577-714 | a ledger in a state its methods keep loads as a valid ledger with the same window, history and cursors, and so answers as it did |
| Dispatcher.OrderIsTotal | harness/dispatcher.py:170-173 | the plan's order on candidates is total and antisymmetric |
| Dispatcher.OrderedSorts | harness/dispatcher.py:170-173 | the candidates are put in that order, none lost or added |
| Dispatcher.StopsExactly | harness/governor.py:70-81 | nothing stops the plan exactly when admission refuses nothing at that instant and neither halt stands; and it blames the usage only when nothing asked before it holds |
| Dispatcher.FillSlots | harness/dispatcher.py:181-208 | the loop starts the first eligible candidates up to the slots, and skips the rest with the first rule each met |
| Dispatcher.MakePlan | harness/dispatcher.py:113-214 | the whole plan is the specified one |
| Dispatcher.PlanStarts | harness/dispatcher.py:113-214 | the early returns change nothing: the plan starts the uncapped carry and then the first eligible candidates in order, or nothing when stopped |
| Dispatcher.PlanAgreesWithAdmission | harness/governor.py:70-81 | whatever the plan starts, admission does not refuse at that instant, and no halt stands |
| Dispatcher.PlanPartitions | harness/dispatcher.py:188-208 | past the early returns every candidate but the carry is started or skipped, exactly one of them when issues differ, and the skip names the first rule it met |
| Dispatcher.PlanIsGreedy | harness/dispatcher.py:170-208 | a candidate that could start and did not finds the slots full, and everything started after the carry comes at or before it |
| Dispatcher.PlanOrderIndependent | harness/dispatcher.py:113-214 | what starts does not depend on the order the candidates came in |
| PlanRules.StartedMeetsTheRules | harness/dispatcher.py:188-208 | nothing but the carried item starts against the rules: no stop holds, the window or a block is open or the item is forced or owed, suggested work is not refused, the item is not capped, and every dependency is merged |
| PlanRules.LeftOutFindsTheSlotsFull | harness/dispatcher.py:170-208 | a candidate that meets them all and does not start finds the slots full of others that come before it: higher class, then forced, then older, then lower number |
| PlanRules.SlotsHold | harness/dispatcher.py:163-165 | no more starts than the configured slots, or one outside the GitHub store |
| PlanRules.CarryResumes | harness/dispatcher.py:155-187 | the carried item starts first, exactly when the window or a block is open, the window is not daily or it is owed, and no cap holds it |
| PlanRules.CappedCarryIsSkipped | harness/dispatcher.py:183-187 | a capped carried item that might resume is skipped as capped |
| PlanRules.SkipNamesTheFirstRule | harness/dispatcher.py:188-208 | a skip names the first rule not met, and of the dependencies the first not merged; or, when all are met, full slots |
| PlanRules.ReasonNamesTheFirstStop | harness/dispatcher.py:133-178 | the reason names the first stop that holds, limit, halt, commanded halt, session share, or that nothing has its time |
| PlanRules.OrderInWords | harness/dispatcher.py:168-173 | the order by class, then forced, then creation text, then number |
| Relay.WakeTimes | harness/dispatcher.py:224-252 | the offered instants, ascending and without repeats |
| Relay.SamplesAre | harness/dispatcher.py:224-252 | the instants tried: 20 minutes on, or an hour after a check of the last three hours that saw someone spending; a minute after the stored limit's end and after the session's reset; the next opening; within a day, none before the first |
| Relay.ClearMinuteIsSampled | harness/dispatcher.py:224-252 | with the limits clear at the floor, or a minute before an instant, they are clear at a sample by then |
| Relay.ReadyIff | harness/dispatcher.py:159-208 | something starts exactly when the carry does or a slot meets an eligible candidate |
| Relay.ReadyGrows | harness/dispatcher.py:145-208 | opening the window or owing more never makes a ready plan empty |
| Relay.FoundExactly | harness/dispatcher.py:224-269 | when something starts at an instant inside the horizon, a sample by then starts something exactly when no limit refuses at one |
| Relay.WholeMinuteIsFound | harness/dispatcher.py:224-269 | what starts at both ends of a minute is met before the minute ends |
| Relay.WakeAt | harness/dispatcher.py:255-269 | the first sample that starts something, never before the 20 minutes or the hour and never past a day, and right then when something starts then: no later than a startable instant exactly when no limit refuses at a sample by then, and with none at the earliest the soonest startable instant, or None exactly when there is none |
| Relay.PlanningWakeAt | harness/dispatcher.py:272-296 | the first sample before the record's end at which no limit, share or halt refuses, within the same bounds: no later than a free instant exactly when none refuses at a sample by then, and with none at the earliest the soonest, or None exactly when there is none |
| Relay.HalfMinuteIsMissed | harness/dispatcher.py:241-248 | a concrete half minute after the stored limit's end that no sample meets |
| Relay.UnbegunRecordIsMissed | harness/dispatcher.py:224-252 | a concrete owed record, begun after every sample, that is missed with no limit in sight |
| OwedWork.OweWindow | harness/__main__.py:1834-1848 | one dispatch's effect on the owed record |
| OwedWork.CountsExactly | harness/__main__.py:1834-1848 | a dispatch counts exactly when it comes within the window's length of an opening, or six hours more when it is scheduled |
| OwedWork.RecordSpansOnePeriod | harness/__main__.py:1834-1848 | over any run of dispatches in time order the record runs from an opening already past to the very next one |
| OwedWork.OwedSinceIsPast | harness/__main__.py:1834-1848 | a record has begun by any instant after the dispatch that left it |
| OwedWork.OwedUntilTheNextOpening | harness/ledger.py:382-437 | an item approved at a counting dispatch and at every later one is owed at every instant until the next opening |
| OwedWork.OnlyCountedIsOwed | harness/__main__.py:1834-1848 | nothing else is owed: an item on the record was approved at a dispatch that counted, to whose next opening it runs, and at every one since |
| OwedWork.NothingOwedPastTheOpening | harness/ledger.py:426-437 | nothing recorded before an opening is owed at it or after it |
| Keywords.CommandsFrom | harness/keywords.py:350-389 | one comment's commands, its mark and its refusals, and the question `ack` has settled |
| CommandLevels.CollectedAreAsTyped | harness/keywords.py:350-437 | every command collected is as a trusted person typed it, kept when its author reaches the level it needs and a refusal when not; forced only at level 3, and noted when the flag was refused |
| CommandLevels.OneRowCounts | harness/keywords.py:376-413 | what a row adds to what is counted against a login: one for a stranger, and one for each command above its author's level |
| CommandLevels.RefusalsAreCounted | harness/keywords.py:410-411 | over a sweep the count against a login grows by exactly the refusals among its commands, when all its comments are trusted ones |
| CommandLevels.TargetsAre | harness/keywords.py:478-509 | the thread a notification names, by its kind and repository |
| CommandLevels.RowsAre | harness/keywords.py:540-546 | review comments are read with a pull request's thread alone |
| CommandLevels.ReadFrom | harness/keywords.py:547-554 | a comment is read when its last change, or else its posting, is at the bound or after it |
| CommandLevels.RequestsAre | harness/keywords.py:578-621 | exactly which threads a sweep asks for, from when, and which may fail |
| Keywords.Read | harness/keywords.py:536-576 | one thread is read at most once a sweep, from its bound, and may raise only where it is not guarded |
| Keywords.RaisedStays | harness/keywords.py:584-622 | nothing is read past an unguarded failure |
| Keywords.UnseeHeld | harness/keywords.py:582-583 | exactly the held comments come unseen |
| Keywords.Sweep | harness/keywords.py:512-627 | the cursors a sweep leaves and the commands it returns, whether it returns or raises |
| SweepCoverage.Coverage | harness/keywords.py:531-627 | in a sweep that returns, an unseen comment is marked seen exactly when the first request for its thread reaches it and it carries commands, and collected exactly when `ack` has not answered it besides |
| SweepCoverage.RequestsSound | harness/keywords.py:531-627 | no comment is collected twice, and every collected one is seen |
| SweepRuns.ByCommentRecovers | harness/__main__.py:2743-2754 | regrouping the returned commands gives back each comment's own, in order |
| SweepRuns.RunComment | harness/__main__.py:2764-2794 | which of a comment's commands are acted on and what it replies to each, when it is held, and whether the batch goes on |
| SweepRuns.FateMeans | harness/__main__.py:2764-2794 | a comment is held exactly when the model's limit met its first command; else its commands are acted on up to the first that stops the batch |
| SweepRuns.RepliesMean | harness/__main__.py:2773-2791 | which reply each command gets, by how it went |
| SweepRuns.SilentExactly | harness/__main__.py:2773-2791 | a command is left without an answer exactly when its comment was not held and an earlier command of it stopped the batch |
| SweepRuns.ThirdCommandIsSilent | harness/__main__.py:2773-2791 | three commands on which that happens |
| SweepRuns.ActOnGroups | harness/__main__.py:3068-3077 | the batch loop, the holding of what a stopped batch never reached, and where an exception leaves it |
| SweepRuns.CmdSweep | harness/__main__.py:3047-3080 | one sweep command: a spent block cleared, what it collected, what became of it, and the cursors it saves, whether it ends, raises as it reads or is left by an exception in the batch |
| SweepRuns.NothingCollectedIsLost | harness/__main__.py:3068-3077 | every collected comment is acted on or held, held once, and nothing else joins the held |
| SweepRuns.StoppedBatchHoldsTheRest | harness/__main__.py:3068-3077 | a stopped batch was stopped at one comment and every comment after it is held |
| SweepRuns.OneStep | harness/__main__.py:3047-3080 | a sweep, however it ends, collects nothing done with before; and it keeps what is done with seen and not held exactly when it is not done, under the stored limit, with a comment still held |
| SweepRuns.CarefulRuns | harness/keywords.py:578-583 | no sweep begins under the limit with a held comment unseen when none comes right after one that raised with no limit, as in any run of sweeps that return |
| SweepRuns.AtMostOnce | harness/keywords.py:350-389 | over any run of sweeps, returning, raising or left by an exception in the batch, of which none begins under the limit with a held comment unseen, a comment whose commands ran is seen and not held before every later sweep and collected by none |
| SweepRuns.LostExactly | harness/__main__.py:3068-3079 | what an exception in the batch loses: exactly the comments after the one it came from |
| SweepRuns.LostForGood | harness/__main__.py:3068-3079 | over the same runs such a comment is seen, never held and collected by no later sweep, and none of its commands ran |
| HeldAgain.RaiseRunsItTwice | harness/keywords.py:578-585 | a concrete run without that: a raise, a limited sweep that runs a comment still held, and one that runs it again |
| SweepRuns.FirstLedgerSettled | harness/ledger.py:167-168 | the promise holds from a first ledger on |
| SweepPromises.HeldCommentsComeBack | harness/keywords.py:578-626 | with no stored limit, a held comment whose thread reads is collected once unless `ack` answered it, and its entry is released, several entries on one thread included |
| SweepPromises.UnreadHeldIsDropped | harness/keywords.py:586-626 | with no stored limit, a held comment no readable thread lists is let go: not held, not seen and not collected after the sweep |
| HeldAgain.EntryNamesItsThread | harness/__main__.py:2797-2803 | the entry a held comment leaves names its own thread and when it was posted |
| HeldAgain.HeldIsCollectedLater | harness/__main__.py:3068-3077 | a comment held in one sweep is collected by the first later sweep to return with no limit, if its thread reads then, unless `ack` answered it |
| SweepPromises.ReachedBy | harness/keywords.py:536-627 | a comment is seen, and collected unless answered, when some request reaches it and none before it reads its thread from later |
| SweepPromises.NoGapInTheFeed | harness/keywords.py:451-467 | a comment whose notification lags at most half an hour is inside the bound of the first sweep whose feed can hold it, whichever sweeps before lost their feed or raised; before any feed came, exactly when it is inside the lookback |
| SweepPromises.TheFeedCollects | harness/keywords.py:601-627 | inside the bound is enough: the comment is seen and, unless answered, collected, when no held comment had its thread read from later |
| SweepPromises.FirstFeedCollects | harness/keywords.py:451-627 | the two over a run: the first sweep whose feed names a comment, told of at most half an hour late, collects it unless `ack` answered it |
| SweepPromises.FailedFirstFeedLosesTheHour | harness/keywords.py:531-532 | a first feed that fails loses what only its lookback held |
| SweepPromises.ARaiseUnseesHeld | harness/keywords.py:581-585 | a sweep that raises at the inbox leaves every held comment both unseen and held |
| DeliveryCap.DeliveryCapRefusals | harness/stages/deliver.py:810-844 | nothing is refused with no cap or no write access; else an item is, exactly when the deliveries cannot be counted, or those listed and this run's others reach the cap and none is the item's own |
| DeliveryCap.RunItems | harness/__main__.py:1541-1615 | the item loop with its gates and its early ends: which items are begun, what it delivers, and exactly which wait |
| DeliveryCap.DeliveredExactly | harness/__main__.py:1541-1615 | what a run has delivered: the branches of the turns that nothing held back and that opened their pull request |
| DeliveryCap.UncappedNeverHoldsBack | harness/stages/deliver.py:810-828 | with no cap no item whose gates are clear waits |
| DeliveryCap.CountCovers | harness/stages/deliver.py:834-835 | listed and delivered branches, counted together, are at least what is open |
| DeliveryCap.CapHolds | harness/stages/deliver.py:816-844 | over a whole run whose listings show what others have open, and no item's own closed branch, the open pull requests never exceed the larger of the cap and what was open at the start |
| DeliveryCap.PassesExactly | harness/stages/deliver.py:834-844 | a turn passes the bound exactly when it reopens its own branch, listed though closed, past a full count, with the bound met by the rest |
| DeliveryCap.StaleListingPassesTheCap | harness/stages/deliver.py:834-844 | a concrete listing that still shows the item's own closed pull request lets the cap be passed |
| QuietWait.WaitUntilQuiet | harness/quiet.py:223-287 | it goes on past a sample exactly when that is neither refused nor a reason to say quiet and there are rounds and time left; it says quiet exactly when the last sample is a reason: an unreadable first one, no shared window higher in the same session, or a rise beside partner steps; and it names the refusal or those steps |
| QuietWait.RoundsFit | harness/quiet.py:246 | one round always; past it, as many as fit in the wait and no fewer |
| QuietWait.FirstSampleAlone | harness/quiet.py:240-245 | a first sample alone is reason to say quiet exactly when it reports neither window and was not refused |
| QuietWait.RiseIs | harness/quiet.py:131-137 | a window rose when both samples report it and the later one more |
| QuietWait.SessionEndIs | harness/quiet.py:117-119 | the session's end as a sample tells it, or nothing |
| QuietWait.BaseIsTheLastRead | harness/quiet.py:276-278 | a sample is compared with the last before it that could itself be compared, or the first; all between the two were unread against it |
| QuietWait.VerdictsMean | harness/quiet.py:122-138 | what a verdict says of the two samples, for each that decides |
| QueueBlock.Defuse | harness/links.py:718-728 | the rows come out with neither marker in them |
| QueueBlock.Defused | harness/links.py:718-728 | no start and no end marker is left in the rows |
| QueueBlock.BlockHoldsOnePair | harness/links.py:731-738 | the published block holds one pair of markers, its own, whatever the rows say |
| QueueBlock.RowsArePublished | harness/links.py:731-738 | rows without markers or line breaks stand as they are, one a line, between the markers |
| QueueBlock.SpliceIsConservative | harness/links.py:741-752 | a splice happens exactly when there is a span to replace, and changes nothing outside it |
| QueueBlock.BlockIsTheSpan | harness/links.py:731-752 | between any texts with no earlier start marker, the block is the span the next splice replaces |
| QueueBlock.SpliceIsStable | harness/links.py:741-752 | replacing twice is replacing once with the second block |
| Fences.LongestRun | harness/stages/__init__.py:70-80 | the longest line of backticks alone |
| Fences.RunIs | harness/packager.py:72-81 | the run of a line is its backticks, when nothing else but space stands on it |
| Fences.FenceFor | harness/stages/__init__.py:70-80 | a fence that a reader of section 4.5 of the CommonMark specification closes exactly at the end of the body |
| Fences.DataBlock | harness/stages/__init__.py:70-80 | the prompt's block reads back as the body |
| Fences.QuoteAsData | harness/links.py:316-329 | the quoted prose reads back as the body |
| Fences.PackageFence | harness/packager.py:72-81 | the package's evidence reads back as the body |
| Fences.FenceIsReadBack | harness/packager.py:72-81 | any fence longer than every line of backticks alone is read back |
| FrontMatter.FrontMatterDependsOn | harness/__main__.py:1724-1760 | the reader's loop finds what its specification does |
| FrontMatter.StripFront | harness/stages/propose.py:379-390 | the stripping loop leaves what its specification does |
| FrontMatter.UnblankedIsTheBody | harness/stages/propose.py:385-389 | what is dropped before the body is blank, and what is left begins with a line that is not |
| FrontMatter.NoFrontMatter | harness/__main__.py:1724-1760 | a text whose first line is no rule has no dependencies |
| FrontMatter.NothingToStrip | harness/stages/propose.py:379-390 | a text whose first line is no rule is stripped of nothing |
| FrontMatterExact.WhatIsRead | harness/__main__.py:1724-1760 | what the dispatcher's reader finds in any rendered proposal: its dependencies, or what stands before them |
| FrontMatterExact.ReadsBackExactly | harness/__main__.py:1724-1760 | the reader recovers the dependencies, whatever they are, exactly when no line of the title or the paths ends the block or begins the dependencies |
| FrontMatterExact.BodySurvivesExactly | harness/stages/propose.py:379-390 | stripping leaves the body without its leading blank lines exactly when no line between the rules is a rule |
| FrontMatterExact.SafeProposalSurvives | harness/stages/propose.py:431-443 | both hold of a proposal `validate_proposal` accepts whose title and paths hold no separator JSON leaves alone |
| JsonStrings.JsonReadsBack | harness/stages/propose.py:355-361 | any text written as a JSON string is read back whole, whatever stands after it |
| FrontMatterTraps.SeparatorMisleads | harness/stages/propose.py:254-328 | a proposal that passes every check and makes the dispatcher read a dependency that is not there |
| FrontMatterTraps.SeparatorCuts | harness/stages/propose.py:379-390 | a proposal that passes every check and, stripped, leaves more than its body, whatever the body |
| TrustLines.GrantsAreSound | harness/trust.py:161-205 | whatever a line says, it grants a level from 1 to 3 to a lower-case login, pinned to a positive account id or to none |
| TrustLines.GrantLineReadsBack | harness/trust.py:161-205 | a level, a login and a vouch written on a line are read as that grant |
| TrustLines.GrantedExactly | harness/trust.py:161-205 | a line grants exactly when its words are a handle, with one of the three levels before it or none, and one vouch after it or none |
| TrustLines.VouchIs | harness/trust.py:28-31 | a vouch is the word, in any case, and a positive id of at most twenty digits |
| TrustLines.HandleIs | harness/trust.py:40-42 | a handle is one whatever its case, the space around it and the signs before it |
| TrustLines.LoginIs | harness/trust.py:34-37 | a login is 1 to 39 letters, digits and hyphens |
| Trust.ParseTrust | harness/trust.py:141-235 | the file holds about each handle what the lines naming it add up to |
| Trust.GrantMeans | harness/trust.py:206-224 | a handle is granted exactly when all its lines agree about the vouch, at the highest of their levels; implicit and duplicated likewise |
| Trust.LineOrderDoesNotMatter | harness/trust.py:141-235 | what a handle is granted is a function of the multiset of lines |
| Trust.OtherLinesDoNotMatter | harness/trust.py:141-235 | a line naming another handle, wherever it stands, changes nothing |
| Trust.VouchedAreGranted | harness/trust.py:206-224 | a vouched handle is a granted one |
| Trust.AuthorisedExactly | harness/trust.py:256-286 | the gate opens exactly for a granted handle with a line at the level, or any when no level is asked, for the vouched account alone or, with no vouch, on GitHub's word |
| Trust.AssociatedIs | harness/trust.py:276-286 | an unvouched handle is let in on OWNER, MEMBER and COLLABORATOR, in any case and with any space around them, and on no other word |
| Trust.UserIdIsExact | harness/trust.py:59-73 | a text is an account id exactly when it is one to twenty digits, not all zeros, with any space around them |
| Trust.UserIdTextIsItsNumber | harness/trust.py:59-73 | an account id is one account as a number and as its text |
| Trust.AddedLineRaisesOrRefuses | harness/trust.py:195-224 | a line added for a granted handle never lowers it: it raises it, leaves it or ends the grant |
| ProtectedPaths.NormaliseRepoPath | harness/clone.py:144-155 | the normal form of a path, its leading `./` all dropped |
| ProtectedPaths.NormalFormIs | harness/clone.py:144-155 | any number of `./` and then of slashes before a path go, and one slash is put before the rest |
| ProtectedPaths.ProtectedIff | harness/clone.py:144-165 | a path is protected exactly when the marker stands in it or, once its leading space, quotes, `./` and slashes go, it begins with the marker's name |
| ProtectedPaths.SpaceProtectsNothing | harness/clone.py:144-165 | a path cut at any space is protected only if one of its parts is |
| ProtectedPaths.ALineIsProtected | harness/clone.py:158-165 | a protected path shows on one of the lines it is read as |
| ProtectedPaths.StrippedIsProtectedAlike | harness/clone.py:158-165 | space around a path changes nothing about whether it is protected |
| CommitWalk.ParseHarnessWalk | harness/clone.py:260-275 | the walk is the harness's unbroken run from the tip, cut at 100, with where it stopped and whether it was cut |
| CommitWalk.OurEmails | harness/clone.py:113-115 | a commit is the harness's exactly when its email, in any case, is one of the two |
| CommitWalk.WalkReadsWhatWasPrinted | harness/clone.py:260-275 | for any commits with any emails, the walk of what git printed is the walk of the commits, each path as the lines it stands on, exactly when the email below the harness's run, as it is read, is none of the harness's, or the walk never gets there |
| CommitWalk.EmptyAnswerVouches | harness/clone.py:178-193 | whatever the emails, a walk that was not cut holds the harness's whole run, and reports nothing only when no commit of the run touches a protected path; it holds no more and names the run's end under exactly that condition, and then, with one line a path, reports nothing exactly when none is touched |
| CommitWalk.SeparatorForgesACommit | harness/clone.py:260-275 | a concrete stranger's commit whose email holds a record separator, taken for the harness's, with an end named that is no commit |
| CommitWalk.ShowsWhatItTouches | harness/clone.py:273-274 | a commit that touches a protected path always shows it, and with one line a path shows nothing else |
| CommitWalk.SeparatorIsReported | harness/clone.py:266-273 | a concrete path that is not protected and is reported |
| GitPaths.QuotedIsReported | harness/clone.py:144-155 | the quotes and escapes git puts around a path carry no protected one past the match |
| GitPaths.QuotingReadsBack | harness/clone.py:144-155 | what git prints of a path stands for that path alone |
| GitPaths.NothingProtectedPasses | harness/clone.py:178-193 | whatever its paths and its authors' emails are, a walk of git's log that was not cut and reports nothing means no commit of the run touches a protected directory |
| Schedule.NextScheduled | harness/__main__.py:2263-2269 | the least minute-41, three-hourly, Monday-to-Friday instant after now; the loop ends |
| Schedule.SlotIs | harness/__main__.py:2263-2269 | the slots are minute 41 of every third hour from midnight, Monday to Friday |

## Left out

- Parts of a second, and the truncation `iso` does to them: every instant is a whole second.
- Text order of timestamps: ISO timestamps and `created_at` bounds are compared as the instants they
  name, which for the one format the harness writes is the order of the texts.
- GitHub, `git`, the model runner, disk and process work: their answers are parameters.
- Keywords.CommandsFrom: the pattern that finds commands in a comment is not modelled; a comment comes with its parsed
  commands, and its trust is a flag on it (`Trust` models the gate itself on the file's lines).
- SweepRuns.CmdSweep: what a command does is an arbitrary `Result`, so commands that change the window between two
  others (a halt, a block, a resume) are not followed; whether the stored limit stands when a sweep begins is a free
  choice of the run.
- SweepRuns.NothingCollectedIsLost: a sweep that raises as it reads loses what it had collected before, so this is
  about sweeps that return, and whose batch no exception leaves (`SweepRuns.LostExactly` says what one loses).
- Ledgers.Ledger.RequestBlock: the actor is kept as given, and the ledger's rebuild from comments is not modelled.
- Persistence.LoadsWhatWasSaved: the file is a tree of values, so the order of keys and the text of numbers
  are not part of it; identifiers are kept as words.
- Persistence.AnyFileSettles: a hand-edited block, owed or planning record whose stamps do not read is taken for no
  record, a field of another type than the harness writes reads as the empty value where the code would
  convert or raise, and a utilization written as text is no number.
- Usage fields that are not text read as unreadable words where the code asks `str` of them.
- Trust.ParseTrust: the lists of refused, skipped and conflicting lines kept for `doctor` are not part of the file's model.
- Trust.AuthorisedExactly: the plain set of handles a caller may pass instead of a trust file is not modelled.
- RunWindow.EndpointTextIsExact: the pattern also takes decimal digits beyond ASCII in two places of a clock, which
  this reader refuses.
- FrontMatter.FrontMatterDependsOn: `str.isdigit` also takes digits beyond ASCII, on some of which `int` raises; here
  they are no number. `str.lower` and `str.upper` are those of ASCII throughout.
- CommitWalk.WalkReadsWhatWasPrinted: a commit's sha is one line without separators or space around it, as git's are.
- Floating point: a usage reading and the arithmetic on it (`session * 100.0 >= limit` among it) are over the reals, so
  what rounding does at the very limit is not modelled.
- Two spellings of one instant: `observe_usage` and `compare` tell two resets apart by their text, and here a reset is
  the instant it reads as, so resets spelled differently for one instant count as one.
- DeliveryCap.CapHolds: deliveries with no address, which the run does not count, are taken to be counted.
- QuietWait.WaitUntilQuiet: the interval is positive, and the pings, the partner's steps and the clock are functions of the round.
- Redaction of a published proposal, the work-item state machine, `priority.admit`, `outstanding` and
  `queue`, `commitmsg`, the audit findings, configuration loading, `doctor`, `setup`, status replies,
  packages and pull request bodies: presentation, input and output, or branches with no property beyond
  each branch.
