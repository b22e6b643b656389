# Verification model of cloglog

cloglog runs a kanban board for coding agents and reviews their pull requests with
automatic reviewers. This project models the parts of it whose correctness is hardest to
see by reading, and proves properties of the model with Dafny 4.11. Check everything with
`dafny verify dfyconfig.toml`.

| file | what it models |
|---|---|
| `RateLimits.dfy` | the rolling-window rate limiter, against the complete history of review starts |
| `RateLimitBounds.dfy` | the longest window for which the limiter keeps its bound |
| `Retries.dfy` | the consumer that defers rate-limited webhooks to reserved slots, on top of the limiter |
| `RetryBounds.dfy` | the consumer's clash-free runs as runs of the limiter, and for which caps the consumer keeps the hour |
| `TurnTable.dfy` | the table of review turns, the queries on it, the review cap and the board badge |
| `Reviews.dfy`, `ReviewLoops.dfy` | one run of the review loop, and runs that follow one another |
| `RunTraces.dfy` | what one run does, told turn by turn from the events alone |
| `ReviewCaps.dfy` | how many reviews the lifetime cap of a pull request lets through over such runs |
| `Interleavings.dfy` | any number of webhook handlers over the turn table, statement by statement, with crashes |
| `SoloRuns.dfy` | a handler that nobody interrupts does what one run of the loop does |
| `DispatchRaces.dfy` | two overlapping handlers that both dispatch CI when the turn budget is above one |
| `Text.dfy`, `FileHeaders.dfy` | Python's string operations; git's file headers and the path read off them |
| `UnifiedDiffs.dfy`, `HunkHeaders.dfy`, `DiffScans.dfy`, `StrayBreaks.dfy` | reading new-side line numbers off a unified diff, which lines are hunk headers and which are commentable in any text, placing findings, and what line breaks inside a line do to the numbers |
| `DiffFilters.dfy`, `FilteredTexts.dfy`, `FilteredPatches.dfy` | dropping unwanted files from a diff, the text that is left, and exactly when that commutes with reading it |
| `Graphs.dfy`, `Dependencies.dfy` | dependency edges between features and between tasks, and the cycle search |
| `StartGate.dfy` | the blocker list in front of `in_progress`, and when some task can always start |
| `EventBuses.dfy`, `Deliveries.dfy` | one worker's event bus, and several workers joined by NOTIFY |
| `Sessions.dfy` | worktree rows, agent sessions, heartbeats and clean-up |
| `Registrations.dfy` | registrations and sweeps of one worktree that overlap, one repository call a step |
| `Replies.dfy` | matching replayed turns to posted reviews and findings to the author's replies |
| `Prelude.dfy` | options, sorting, filtering, query results |

Time is a real number of seconds on a clock that is a parameter of every call. What GitHub,
a reviewer process or the network does is a parameter too: a post succeeds or is lost, a
review arrives, fails or times out, a notification arrives or is lost. Row keys are natural
numbers. The predicate on skippable paths is arbitrary.

## What came out

Where the code keeps a promise only under a condition, a theorem gives the condition in both
directions and a concrete run or input shows what happens without it.

* The rate limiter on its own, as long as every retry it fires still holds its reservation,
  bounds every window of the whole history, shortened by how late retries fire. For caps of two
  or more and lateness up to an hour less one second the shortened window is the longest that is
  safe (`RateLimitBounds.ShortenedWindowExactly`). The full hour is kept by all these runs exactly
  when retries are never late or the cap is at most one (`RateLimitBounds.FullHourExactly`).
* The consumer that drives the limiter does not keep that proviso. Two reservations can share a
  wake time; cancelling a retry that has already fired then releases the slot of the other one,
  which fires all the same. So the consumer keeps the hour, or any window of two seconds or more,
  over all its runs exactly when the cap is at most one (`RetryBounds.FullHourExactly`), even if
  every retry is on time: for caps of three or more it can start one review more than the cap at
  one instant (`CrowdedRun`), for a cap of two see `ClashBreaksTheWindow`. Runs without such a
  clash are runs of the limiter (`ClashFreeRefines`).
* Short of the cap nothing is refused: a review starts exactly when the starts of the last hour
  and the reservations are fewer than the cap, and a promised slot is the earliest that is free
  (`RefusesNothingItNeedNot`, `StartsExactly`; `VerdictExactly` for all four answers).
* The two models of the review loop agree: a handler that nobody interrupts does what one run
  does (`SoloHandlerRuns`, `SoloWebhook`), and what a run does is told turn by turn
  (`RunExactly`).
* CI is dispatched at most once for a commit over all interleavings exactly when the budget
  is one codex turn (`CiOnceExactly`); over runs that do not overlap any fixed budget is fine.
* CI need not be dispatched at all. For every budget of two or more turns, a first run that
  fails turn 1, posts an objection on turn 2 and then times out, and a second one that retries
  turn 1, leave the stage final without a dispatch, and no later run makes up for it
  (`StalledRunsNeverDispatch`). Over runs that do not overlap, no exception cutting one short,
  a final stage has dispatched exactly once if and only if the budget is one turn
  (`FinalMeansDispatchedExactly`).
* The lifetime cap does not bound the reviews of a pull request, even over runs that do not
  overlap and all pass the gate. A retried turn keeps its old session number, so its review is not
  counted (`RetriesEscapeTheCap`); a crash between a post and its stamp leaves nothing to count
  (`CrashesEscapeTheCap`). Either way any number of reviews is posted under the same count. For
  every set of things that may happen to a turn, the cap times the turn budget is a bound exactly
  when no such crash is among them, and no failure that is retried together with a post that is
  stamped (`CapExactly`).
* The line numbers of a diff are right exactly when no added line begins with `++`
  (`LineNumbersMeanWhatTheySay`), for files with LF or CRLF line ends. With
  other line breaks inside lines, such as form feeds, they are right exactly when every hunk has
  as many pieces that count as new text as it has new-side lines, provided no piece reads like a
  header and hunks do not touch (`NumbersRightExactly`; `StrayBreakExactly` and
  `FormFeedCountsTwice` for one inserted line). As long as no piece reads like a file header,
  each file's section decides on its own (`SectionDecides`). `InsertedLineIsWellFormed` gives diffs that meet
  the premises.
* A file header gives the new path back exactly when git does not quote that path, it has no
  blanks around it, and the old path has no " b/" in it (`GitHeaderExactly`). Git quotes paths
  with non-ASCII characters, quotes, backslashes or controls. Without a " b/" in its paths such a
  file gets no line numbers, and no predicate on paths drops it (`QuotedFileEscapes`,
  `AccentedNameIsLost`).
* Filtering a diff and reading it commute up to one line (`FilteringCommutesUpToLost`). A
  written-out diff loses that line exactly when the last hunk of the last kept file ends in an
  empty line and a file after it is dropped (`FilteringCommutesExactly`).
* Each of the two dependency graphs stays acyclic when additions do not overlap. Two additions
  that both search before either inserts close a cycle exactly when each edge leads to the start
  of the other (`OverlapExactly`).
* The gate checks both graphs and the spec, plan, implementation order together. A plan can get
  stuck, with tasks that have not started, none of which can start, and no task under way,
  exactly when the union of the three has a cycle (`NeverStuckExactly`, `CrossedEdgesDeadlock`).
* A worktree has at most one active session over all interleavings of registrations and sweeps
  exactly when there is at most one registration (`OneActiveExactly`). Two that overlap can leave
  two sessions active, and then every further registration raises, as long as neither of the two
  times out (`OverlapLocksOut`, `ThirdRaises`). It ends up online with one
  session or offline with none exactly when there are only sweeps, or one registration and no
  sweep that finds its old session timed out (`ConsistentExactly`); otherwise a sweep can take a
  worktree offline that has just registered again.
* When as many turns are replayed as posted, replies are attributed to the right turns exactly
  when the turns were created in the order in which they posted. A lower turn that is retried
  and posts after a higher one is swapped with it (`OwnReviewsExactly`,
  `RetriedTurnsAreSwapped`).

Where the code and its comments disagree, the model follows the code. `ReviewLoop.run` says
that it hydrates the prior finding keys from stored turns; it starts from the empty set. The
same method mentions a unique index of one post per session; the table has none, and the model
does not assume it. `_build_enriched_turns` says that positions match when the counts do; see
the last point above.

## Model

| member | source | states |
|---|---|---|
| `RateLimits.RateLimiter.Allow` | src/gateway/review_engine.py:243-249 | a review starts exactly when the recorded starts of the last hour and the reservations together are fewer than the cap |
| `RateLimits.RateLimiter.Reserve` | src/gateway/review_engine.py:261-291 | the promised wake is the earliest time at which fewer than the cap of all scheduled starts lie in the window that ends there |
| `RateLimits.SlotIsEarliest` | src/gateway/review_engine.py:277-289 | indexing the sorted schedule at its length minus the cap finds that earliest time |
| `RateLimits.EarliestSlotIsUnique` | src/gateway/review_engine.py:261-275 | there is only one such time, so the specification of the slot leaves no freedom |
| `RateLimits.RateLimiter.ReleaseReservation` | src/gateway/review_engine.py:293-297 | one reservation with that wake goes, and an unknown wake changes nothing |
| `RateLimits.RateLimiter.ConsumeReservation` | src/gateway/review_engine.py:299-307 | the reservation becomes a start at the present time in one step |
| `RateLimits.StepIsSafe` | src/gateway/review_engine.py:243-307 | every call keeps the invariant: starts in a window plus promises that can still fire in it stay within the cap, and pruning loses no start that matters |
| `RateLimits.RollingWindowSafety` | src/gateway/review_engine.py:224-307 | over every run, no window of length one hour minus the lateness of the complete history holds more starts than the cap, and no more reservations than the cap exist |
| `RateLimits.RefusesNothingItNeedNot` | src/gateway/review_engine.py:243-291 | over every run a start is made if and only if the starts of the last hour of the complete history and the reservations are fewer than the cap, and a promised slot is the earliest time at which fewer than the cap of all starts and promises are due |
| `RateLimitBounds.ShortenedWindowExactly` | src/gateway/review_engine.py:224-307 | for every cap of two or more and every lateness up to an hour less one second, all runs of the limiter keep the bound for windows of a length if and only if the length is at most an hour less the lateness |
| `RateLimitBounds.SingleStarts` | src/gateway/review_engine.py:224-307 | with a cap of one, or none, every run of the limiter keeps the full hour however late retries fire |
| `RateLimitBounds.FullHourExactly` | src/gateway/review_engine.py:224-307 | for every cap and lateness, all runs of the limiter in which only reserved retries fire keep the full hour if and only if retries are never late or the cap is at most one |
| `Retries.ReviewEngineConsumer.Handle` | src/gateway/review_engine.py:1430-1485 | a webhook starts, is deferred to the earliest slot, is refused, or is blocked for good; an older retry of the same pull request is cancelled and its reservation released |
| `Retries.ReviewEngineConsumer.ScheduleRetry` | src/gateway/review_engine.py:1528-1573 | the older retry is cancelled before capacity is asked for, and the new one is tracked with its wake |
| `Retries.ReviewEngineConsumer.Fire` | src/gateway/review_engine.py:1585-1591 | a sleeping retry turns its reservation into a start |
| `Retries.ReviewEngineConsumer.Finish` | src/gateway/review_engine.py:1601-1606 | a finished retry clears only its own entry, not that of a newer one |
| `Retries.HandleKeepsLedgerExactly` | src/gateway/review_engine.py:1430-1485 | reserved wakes stay exactly the wakes of sleeping retries if and only if the webhook does not cancel a fired retry whose wake another retry still holds |
| `Retries.FireKeepsLedger` | src/gateway/review_engine.py:1575-1591 | firing keeps that ledger, and the reservation was there to consume |
| `Retries.DistinctWakesNeverClash` | src/gateway/review_engine.py:1481-1485 | pairwise distinct wakes rule the clash out |
| `Retries.ReplacementSucceeds` | src/gateway/review_engine.py:1538-1565 | replacing a sleeping retry succeeds even when every slot is promised |
| `Retries.ReservationLedger` | src/gateway/review_engine.py:1430-1606 | over every run without a clash the ledger holds, reservations stay within the cap, and the window bound holds for the complete history |
| `Retries.StartsExactly` | src/gateway/review_engine.py:1430-1485 | over every run, clashes included, a webhook starts its review if and only if the starts of the last hour and the reservations are fewer than the cap, and is blocked for good if and only if the cap is zero |
| `Retries.VerdictExactly` | src/gateway/review_engine.py:1430-1573 | over every run without a clash the starts of the last hour and the sleeping retries decide whether a webhook starts, is deferred, refused or blocked; the retry of its own pull request frees its slot first |
| `Retries.SlotExactly` | src/gateway/review_engine.py:261-291 | the slot a deferred webhook is given is the earliest at which the starts of the window ending there and the later retries of other pull requests are fewer than the cap |
| `Retries.HandleTracks` | src/gateway/review_engine.py:1476-1573 | a webhook that is not blocked replaces the tracked retry of its pull request, by a new one only when deferred, and touches no other |
| `Retries.ReplacedTaskIsSilent` | src/gateway/review_engine.py:1601-1606 | over every run, the end of a task whose retry was replaced changes nothing, however much later it comes |
| `Retries.ClashBreaksTheWindow` | src/gateway/review_engine.py:1476-1485 | a concrete run with the clash starts three reviews in two seconds under a cap of two an hour, with every retry on time |
| `RetryBounds.ClashFreeRefines` | src/gateway/review_engine.py:1430-1606 | a run of the consumer without a clash is a run of the limiter with the same starts |
| `RetryBounds.SingleReviews` | src/gateway/review_engine.py:1430-1606 | with a cap of one, or none, no run of the consumer clashes and every run keeps the full hour, however late retries fire |
| `RetryBounds.CrowdedRun` | src/gateway/review_engine.py:1430-1606 | for every cap of three or more there is a run, all on time, that starts one review more than the cap at one instant |
| `RetryBounds.FullHourExactly` | src/gateway/review_engine.py:1430-1606 | for every cap, every lateness and every window from two seconds to an hour, all runs of the consumer keep the bound if and only if the cap is at most one |
| `TurnTable.ReviewTurnRepository.ClaimTurn` | src/review/repository.py:49-81 | inserts a running row or nothing, and says which |
| `TurnTable.ReviewTurnRepository.CompleteTurn` | src/review/repository.py:83-109 | sets status, count and consensus of an existing row only |
| `TurnTable.ReviewTurnRepository.ResetToRunning` | src/review/repository.py:174-202 | takes a failed row back to running, and no other |
| `TurnTable.ReviewTurnRepository.MarkTurnPosted` | src/review/repository.py:140-172 | stamps a row once and reports whether it did |
| `TurnTable.ReviewTurnRepository.TurnsForStage` | src/review/repository.py:121-138 | lists exactly the rows of one stage of one commit |
| `TurnTable.ComputeNextTurn` | src/gateway/review_loop.py:957-976 | finds the lowest failed turn, else the turn after the highest, else turn 1 |
| `TurnTable.ExhaustedMeansRefused` | src/review/repository.py:351-434 | an EXHAUSTED badge implies that the cap gate refuses the next review of the pull request, on any commit |
| `TurnTable.BadgeExactly` | src/review/repository.py:351-434 | for every table the badge is the one told row by row: not started, stale, working, pass, failed, exhausted, or the number of completed turns of the commit |
| `TurnTable.RefusedExactly` | src/gateway/review_engine.py:1235-1257 | the gate refuses an unapproved review if and only if five sessions have posted a codex review on the pull request, and always refuses an approved one |
| `TurnTable.RefusedMeansExhausted` | src/review/repository.py:351-434 | when the gate refuses an unapproved review and the rows belong to the project, the badge of a known commit is neither stale nor progress, and is EXHAUSTED if and only if no turn of the commit is running, none agreed and was saved, and the last one neither failed, timed out nor lost its findings |
| `Reviews.KeysIdentify` | src/gateway/review_loop.py:198-218 | two findings have one key if and only if they name the same file and line, and the same title up to case and surrounding blanks |
| `ReviewLoops.ReviewLoop.EarlyExit` | src/gateway/review_loop.py:455-530 | the run ends at once after consensus, with a spent budget, or when its session has posted, with the outcome the source gives each |
| `ReviewLoops.ReviewLoop.TryWin` | src/gateway/review_loop.py:534-564 | a turn is won exactly when its row is missing or failed, by insertion or by reset |
| `ReviewLoops.ReviewLoop.PlayTurn` | src/gateway/review_loop.py:603-904 | what one turn does to the table, the finding keys and the outcome, for every way the reviewer, GitHub, the database or an exception can turn out |
| `ReviewLoops.ReviewLoop.Run` | src/gateway/review_loop.py:437-955 | a whole run leaves the table and the outcome of its specification |
| `RunTraces.RunExactly` | src/gateway/review_loop.py:437-955 | which turns a run plays, what it writes for each and how it ends, told from the events alone: it goes on after failures, timeouts and posts that are no all-clear, list a critical or high finding or do not approve, and bring something new |
| `RunTraces.FirstAgreementEnds` | src/gateway/review_loop.py:339-364 | the first posted review that is an all-clear, an approval without critical or high findings, or brings nothing new ends the run with consensus at that turn |
| `RunTraces.ContradictionsEndNothing` | src/gateway/review_loop.py:339-364 | if every review lists a critical or high finding new in the run and none is an all-clear, the run ends without consensus and no row it writes has it, approvals or not |
| `RunTraces.EarlyExitExactly` | src/gateway/review_loop.py:455-530 | a run exits early if and only if a row of its stage agrees, no turn of the budget is left, or its session has spoken, and which turn it reports then |
| `ReviewLoops.LoopLeavesOthers` | src/gateway/review_loop.py:533-904 | a run touches no other stage, commit or pull request and no turn below where it resumed |
| `ReviewLoops.StalledTurnsBringNews` | src/gateway/review_loop.py:783-904 | from any turn on, the posts that do not end the run number at most those so far and the finding keys, not seen before, that the remaining turns can report |
| `ReviewLoops.PostsBoundedByFindings` | src/gateway/review_loop.py:339-364 | posts that do not end the run number at most the distinct finding keys the reviewer reports |
| `ReviewLoops.DispatchIsFinal` | src/gateway/review_loop.py:916-953 | a run that dispatches CI leaves consensus or every turn of the budget filled and none failed |
| `ReviewLoops.CiDispatchedAtMostOnce` | src/gateway/review_loop.py:930-953 | over every sequence of runs that do not overlap, with any fixed budget, CI is dispatched at most once for a commit |
| `ReviewLoops.SingleTurnDispatches` | src/gateway/review_loop.py:930-953 | with a budget of one turn, over runs that do not overlap and that no exception cuts short, CI has been dispatched once if the stage is final and not at all otherwise |
| `ReviewLoops.StalledRunsNeverDispatch` | src/gateway/review_loop.py:930-953 | for every budget of two or more turns two concrete runs from an empty table leave the stage final without a dispatch, whatever runs follow |
| `ReviewLoops.FinalMeansDispatchedExactly` | src/gateway/review_loop.py:916-953 | a final stage has dispatched CI exactly once, over every sequence of uninterrupted runs from an empty stage, if and only if the budget is one turn |
| `ReviewCaps.CapBoundsReviews` | src/gateway/review_engine.py:1693-1740 | over gated runs that do not overlap, if no crash comes between a post and its stamp, and no turn is left to retry where posts are stamped, the codex reviews of a pull request number at most the cap times the turn budget |
| `ReviewCaps.RetriesEscapeTheCap` | src/review/repository.py:284-297 | for every number, every kind of failure that is retried and every kind of stamped post there are gated runs of these that post that many codex reviews on one pull request |
| `ReviewCaps.CrashesEscapeTheCap` | src/review/repository.py:284-297 | the same for runs that crash between the post and the stamp, without any retry |
| `ReviewCaps.CapExactly` | src/gateway/review_engine.py:1693-1740 | for every set of events that turns may meet, the cap times the budget bounds the reviews over all gated runs with only those events if and only if no crash between post and stamp is in the set, and no retried failure together with a stamped post |
| `ReviewLoops.ConsensusIsTerminal` | src/gateway/review_loop.py:455-472 | after consensus every later run leaves the stage's rows alone and posts nothing |
| `ReviewLoops.PassIsForGood` | src/review/repository.py:351-434 | and the PASS badge of that commit stays |
| `Interleavings.StepKeepsOwnership` | src/gateway/review_loop.py:534-794 | each atomic step of any handler, a crash included, keeps turn ownership |
| `Interleavings.TurnOwnership` | src/review/repository.py:60-81 | over every interleaving a turn has at most one owner, an owner's row is running, and a turn is posted at most once |
| `Interleavings.TurnsAreContiguous` | src/gateway/review_loop.py:474-564 | the turns of each stage of each commit are always 1 to k with k within the budget |
| `Interleavings.PostedSessionsAreContiguous` | src/review/repository.py:284-297 | the posted codex sessions of a pull request are always 1 to n with n within the cap, although sessions overlap and retried turns keep an old number |
| `Interleavings.StampKeepsSegment` | src/review/repository.py:140-172 | stamping a turn adds its session inside or right after the segment of posted sessions |
| `Interleavings.CiDispatchedAtMostOnce` | src/gateway/review_loop.py:930-953 | with a budget of one codex turn CI is dispatched at most once for a commit over every interleaving |
| `Interleavings.ReachableWorlds` | src/gateway/review_engine.py:1693-1708 | all of the above for every world reachable from an empty table |
| `Interleavings.GateExactly` | src/gateway/review_engine.py:1693-1740 | the gate turns a handler away if and only if five sessions have posted, or one has and the latest review approves; else the handler gets the next session number |
| `Interleavings.GateMeansExhausted` | src/review/repository.py:351-434 | in every reachable world where the gate turns a handler away without an approval, the badge of no commit is stale or progress, provided the webhooks of the pull request belong to one project, and when it is EXHAUSTED |
| `SoloRuns.SoloHandlerRuns` | src/gateway/review_loop.py:437-955 | a handler about to begin a stage and left alone can take, statement by statement, the table, the posts and the dispatch to where a run of the loop takes them, for every behaviour of reviewer, GitHub and exceptions |
| `SoloRuns.SoloWebhook` | src/gateway/review_engine.py:1693-1740 | a whole webhook handled alone: at the cap nothing changes, otherwise its session number is one more than the sessions that have posted, and it makes a run of the opencode loop and, unless that crashed, one of the codex loop |
| `DispatchRaces.OverlapDispatchesTwice` | src/gateway/review_loop.py:930-953 | with any budget of two or more turns two overlapping handlers dispatch CI twice |
| `DispatchRaces.CiOnceExactly` | src/gateway/review_loop.py:930-953 | the at-most-once guarantee over all interleavings holds if and only if the budget is one turn |
| `FileHeaders.GitHeaderExactly` | src/gateway/review_engine.py:335-341 | for every old and new path, the new path that git wrote into a file header is read back if and only if git does not quote it, it has no blanks around it, and the old path has no " b/" in it |
| `FileHeaders.QuotedHeaderNamesNothing` | src/gateway/review_engine.py:335-341 | a header with a quoted new path names no path when neither path has a " b/" in it |
| `FileHeaders.AccentedNameIsLost` | src/gateway/review_engine.py:335-341 | the header of a file named with one accented letter names no path |
| `DiffFilters.QuotedFileEscapes` | src/gateway/review_engine.py:364-375 | the section of such a file finds no line numbers and survives every predicate on paths |
| `UnifiedDiffs.HunkHeaderRoundTrip` | src/gateway/review_engine.py:124 | the new-side start that was written into a hunk header is read back, for all four forms of the counts and any trailing text |
| `HunkHeaders.HunkStartExactly` | src/gateway/review_engine.py:124 | a line is read as a hunk header if and only if it has the form the pattern asks for, and then its new-side start is read |
| `UnifiedDiffs.ExtractDiffNewLines` | src/gateway/review_engine.py:1011-1061 | the dictionary that the loop builds holds exactly the spots of the diff |
| `DiffScans.SpotsExactly` | src/gateway/review_engine.py:1011-1061 | for every text, well-formed or not, the spots are exactly the lines that are new-side text after the last hunk header, if that can be read, in the section of the last file header, if that names a path, numbered from the start the hunk states |
| `UnifiedDiffs.PartitionFindings` | src/gateway/review_engine.py:1074-1093 | findings split by whether their spot is in the diff, in order and without loss or repetition, and comments carry the finding's place and text |
| `UnifiedDiffs.PlacedExactly` | src/gateway/review_engine.py:1074-1093 | a finding becomes an inline comment if and only if its line is not negative and in the diff, and stays in the body otherwise |
| `UnifiedDiffs.CommentTold` | src/gateway/review_engine.py:1074-1093 | an inline comment stands at the file and line of the finding and shows its severity in capitals before its text |
| `UnifiedDiffs.CommentsTellApart` | src/gateway/review_engine.py:1074-1093 | two findings have one comment text if and only if severity and body agree |
| `UnifiedDiffs.LineNumbersMeanWhatTheySay` | src/gateway/review_engine.py:1028-1061 | for a well-formed diff, with LF or CRLF line ends and headers that name their paths, that turns one text into another, the extracted numbers are the new-side lines the hunks cover if and only if no added line begins with "++", and each covered number names that line of the new text |
| `UnifiedDiffs.InlineCommentsSitInHunks` | src/gateway/review_engine.py:1074-1090 | an inline comment always sits on a covered line of the new file, masked lines or not |
| `StrayBreaks.NumbersRightExactly` | src/gateway/review_engine.py:1028-1061 | with any line breaks inside lines, when no later piece of a line reads like a header and an unchanged line lies between hunks, the extracted numbers are the covered lines if and only if in every hunk the pieces counted as new text number its new-side lines |
| `StrayBreaks.SectionDecides` | src/gateway/review_engine.py:1028-1061 | whatever breaks and hunk headers the lines hold and however the hunks lie, if no later piece reads like a file header the extracted numbers of a file are the covered lines if and only if its section scanned alone records them |
| `StrayBreaks.StrayBreakExactly` | src/gateway/review_engine.py:1028 | for every path and every line with a stray break in it, inserted before an empty line, the extracted numbers are the covered lines if and only if the text after the break reads as a line that is not counted, or restores the count |
| `StrayBreaks.FormFeedCountsTwice` | src/gateway/review_engine.py:1028 | a whole diff that inserts one line with a form feed and a blank in it covers two lines and records three |
| `DiffFilters.FilterDiff` | src/gateway/review_engine.py:348-380 | the loop keeps exactly the sections whose path is not skipped and puts preamble and sections together as the source does |
| `DiffFilters.SectionsRoundTrip` | src/gateway/review_engine.py:360-375 | the sections joined by newlines are the diff again |
| `FilteredTexts.FilteredExactly` | src/gateway/review_engine.py:360-380 | for every diff and predicate the sections of what is left are the kept ones, after the lines in front of the first without their final newlines; when nothing is kept those lines are left as they are |
| `FilteredTexts.UnchangedExactly` | src/gateway/review_engine.py:360-380 | a diff comes out unchanged if and only if no file is dropped and nothing loose stands in front of the first |
| `DiffFilters.FilteringCommutesUpToLost` | src/gateway/review_engine.py:348-380 | for every diff whose line breaks are LF or CRLF and every predicate on paths, reading then dropping files equals filtering then reading, plus one spot named explicitly |
| `DiffFilters.FilteringCommutes` | src/gateway/review_engine.py:377-380 | for every diff whose line breaks are LF or CRLF, without sections but the last that end in an empty line the two are equal |
| `FilteredPatches.SectionsAreFiles` | src/gateway/review_engine.py:360-375 | a written-out diff is cut into exactly its files |
| `FilteredPatches.FilteringCommutesExactly` | src/gateway/review_engine.py:348-380 | for every written-out diff whose hunks apply, and every predicate on paths, filtering and reading commute if and only if the last kept file does not end in an empty hunk line or no file after it is dropped |
| `FilteredPatches.EmptyEndingIsLost` | src/gateway/review_engine.py:377-380 | for all paths and texts: a kept file with one line inserted before an empty one, followed by a skipped file, makes them differ |
| `Graphs.AddingExactly` | src/board/services.py:240-253 | in an acyclic graph a new edge closes a cycle if and only if its head reaches its tail |
| `Graphs.AcyclicExactly` | src/board/services.py:240-253 | a finite graph is acyclic if and only if every nonempty set of nodes has one with no edge into the set |
| `Dependencies.HasCycle` | src/board/services.py:240-291 | the search ends, and finds the node if and only if it is reachable |
| `Dependencies.DependencyTable.DependenciesOf` | src/board/repository.py:415-421 | the query returns every direct dependency once |
| `Dependencies.DependencyTable.Remove` | src/board/repository.py:394-400 | exactly that edge goes, and the result says whether it was there |
| `Dependencies.BoardService.AddDependency` | src/board/services.py:255-271 | the edge is added unless refused, and the first guard that refuses decides the error |
| `Dependencies.BoardService.AddTaskDependency` | src/board/services.py:293-316 | the same for tasks, whose project is found through feature and epic |
| `Dependencies.RefusedExactly` | src/board/services.py:266-271 | a new edge inside one project is refused if and only if it would make a cycle |
| `Dependencies.FeatureRefusalExactly` | src/board/services.py:255-271 | which error an edge between features gets: itself, an unknown end, another project, a duplicate, a cycle, each if and only if no earlier reason holds, and none if and only if the graph stays acyclic |
| `Dependencies.TaskRefusalExactly` | src/board/services.py:293-316 | the same for tasks, whose projects are those of their features' epics |
| `Dependencies.EditedExactly` | src/board/services.py:255-319 | over whole edits an addition adds its edge if and only if both ends exist in one project and the graph stays acyclic, a removal takes its edge away, and neither touches the other graph |
| `Dependencies.GraphsStayAcyclic` | src/board/services.py:255-319 | both graphs stay acyclic over every sequence of additions, removals and other edits, each of them a whole call |
| `Dependencies.OverlapExactly` | src/board/services.py:255-271 | when two additions both search before either inserts, the result has a cycle if and only if each edge leads to the start of the other |
| `Dependencies.OverlapClosesCycle` | src/board/services.py:255-271 | two opposite additions between unconnected nodes both pass the search and close a cycle |
| `StartGate.FeatureBlockers` | src/board/services.py:340-359 | one blocker for each direct upstream feature with unresolved tasks, by number, with the sorted numbers of those tasks |
| `StartGate.TaskBlockers` | src/board/services.py:361-379 | one blocker for each unresolved direct upstream task, by number |
| `StartGate.PipelineBlockers` | src/agent/services.py:321-379 | one blocker for each unresolved predecessor in the spec, plan, implementation order, by number, with the reason |
| `StartGate.CollectAllBlockers` | src/agent/services.py:309-319 | features, then tasks, then predecessors |
| `StartGate.GateOpensExactly` | src/agent/services.py:309-379 | the list is empty if and only if every task of every upstream feature, every upstream task and every predecessor is resolved |
| `StartGate.PredecessorsListed` | src/agent/services.py:321-379 | a spec before a plan, or a plan before an implementation, is listed if and only if it is neither done nor in review with pull request and artifact, with its number, type, status and the reason |
| `StartGate.MissingArtifactIsListed` | src/agent/services.py:352-379 | a spec or plan in review with a pull request and no artifact is listed with that reason, and its successor cannot start |
| `StartGate.UpstreamTasksListed` | src/board/services.py:361-379 | an upstream task is listed if and only if it is neither done nor in review with a pull request |
| `StartGate.UpstreamFeaturesListed` | src/board/services.py:340-359 | an upstream feature is listed if and only if one of its tasks is neither done nor in review with a pull request, with the numbers of exactly those tasks |
| `StartGate.ListedInOrder` | src/agent/services.py:309-319 | features are listed before tasks and tasks before predecessors, each by number and none twice |
| `StartGate.StartsExactly` | src/agent/services.py:381-415 | an existing task starts if and only if the worktree is registered and works on no other task, everything upstream is done or in review with a pull request, and its specs or plans have their artifact; a status update needs the same but for other work |
| `StartGate.RefusedInOrder` | src/agent/services.py:381-415 | which refusal it is: first an unknown worktree, then an unknown task, then other active work, which is listed, then blockers |
| `StartGate.TaskLifecycle.StartTask` | src/agent/services.py:381-415 | a task starts exactly when worktree and task exist, the worktree has no other active task, and nothing upstream is open; otherwise nothing changes |
| `StartGate.TaskLifecycle.MoveToInProgress` | src/agent/services.py:518-607 | a status update to in_progress succeeds under the same blocker condition, and changes only status and pull request |
| `StartGate.TaskLevelProgress` | src/board/services.py:361-379 | while some task is unresolved, some unresolved task has no task-level blocker |
| `StartGate.FeatureLevelProgress` | src/board/services.py:340-359 | while some feature is incomplete, some incomplete feature has no feature-level blocker |
| `StartGate.CombinedProgress` | src/agent/services.py:309-379 | when the union of the three levels is acyclic and some task has not started, one that has not started can start or some task is under way |
| `StartGate.NeverStuckExactly` | src/agent/services.py:309-379 | no assignment of statuses leaves tasks that have not started, none of which can start, with no task under way, if and only if the union of the three levels is acyclic |
| `StartGate.SomeAgentStarts` | src/agent/services.py:381-415 | if some task can start, a worktree without active tasks can start one |
| `StartGate.IdleExactly` | src/agent/services.py:309-379 | no task is under way if and only if each is in neither column, done, or in review with its pull request and, for a spec or a plan, its artifact |
| `StartGate.CrossedEdgesAreAccepted` | src/board/services.py:255-316 | the guards accept a feature edge and a task edge that oppose each other |
| `StartGate.CrossedEdgesDeadlock` | src/agent/services.py:309-319 | and then both tasks are in the backlog, neither can start, and no task is under way |
| `EventBuses.EventBus.Subscribe` | src/shared/events.py:105-109 | a fresh queue joins the project's list |
| `EventBuses.EventBus.Unsubscribe` | src/shared/events.py:117-121 | exactly that queue leaves the list, and keeps what it holds |
| `EventBuses.EventBus.FanOut` | src/shared/events.py:134-139 | every subscriber of the project, and every global one when asked, gets the event once, and no other queue changes |
| `EventBuses.EventBus.Publish` | src/shared/events.py:126-176 | local fan-out to both kinds, and a notification if and only if the bus is cross-worker and the payload has at most 7800 bytes |
| `EventBuses.EventBus.OnNotification` | src/shared/events.py:259-279 | malformed payloads and the worker's own echoes change nothing; others reach project queues only |
| `Deliveries.StepKeepsInv` | src/shared/events.py:126-176 | every step of any worker keeps the delivery invariant |
| `Deliveries.AtMostOnce` | src/shared/events.py:259-279 | in every reachable world a queue has an event at most once, a global queue only events of its own worker, a project queue only those of its project, and events of other workers come from cross-worker buses with at most 7800 bytes |
| `Deliveries.ExactlyOnce` | src/shared/events.py:126-176 | with distinct source ids and no lost notification, a queue that stays subscribed on any worker has an event of at most 7800 bytes from a cross-worker bus exactly once after its notifications drain |
| `Deliveries.HomeExactlyOnce` | src/shared/events.py:126-139 | on the publishing worker every queue subscribed at the time, to the project or to everything, has the event exactly once ever after, whatever is lost |
| `Deliveries.SubscriberHears` | src/shared/events.py:105-139 | over every run a queue that was handed out hears each later publish of its worker, to its project or to any, exactly once until it is unsubscribed |
| `Deliveries.LocalEventsStayHome` | src/shared/events.py:166-183 | over every run an event that is larger than 7800 bytes, or whose bus is not cross-worker, is in no queue of another worker |
| `Deliveries.UnsubscribedIsFrozen` | src/shared/events.py:117-124 | over every run a queue that was unsubscribed keeps what it held and gets nothing more |
| `Sessions.AgentRepository.UpsertWorktree` | src/agent/repository.py:23-65 | the row of the path is reused and set online, an empty branch name replaces nothing, and otherwise a new row is inserted |
| `Sessions.AgentService.Register` | src/agent/services.py:133-163 | the worktree is online with exactly the new session active, and says whether it was known |
| `Sessions.RegisterTold` | src/agent/repository.py:23-65 | the row a registration leaves, online and with the role its path gives, an empty branch name keeping the known one; no other row changes |
| `Sessions.RegisterOpensSession` | src/agent/services.py:158-163 | exactly the active session of that row is ended, and exactly one new one is opened |
| `Sessions.AgentService.Heartbeat` | src/agent/services.py:261-273 | the active session is stamped, and without one the caller is told so |
| `Sessions.HeartbeatRefreshes` | src/agent/services.py:261-273 | a heartbeat makes the worktree fresh if and only if it has an active session, and it then stays online under everything but its own removal and sweeps for later heartbeats |
| `Sessions.AgentService.CheckHeartbeatTimeouts` | src/agent/services.py:879-890 | exactly the active sessions with an old heartbeat time out, exactly their worktrees go offline, and those are returned |
| `Sessions.SweptRow` | src/agent/services.py:879-890 | after the sweep a worktree is online if and only if its active session had a fresh heartbeat |
| `Sessions.SweepTold` | src/agent/services.py:879-890 | exactly the active sessions with an older heartbeat are marked as timed out and exactly their worktrees go offline; every other row is as it was |
| `Sessions.AgentService.Unregister` | src/agent/services.py:728-773 | the row and all its sessions are gone |
| `Sessions.AgentService.ForceUnregister` | src/agent/services.py:775-852 | the same for a caller of the project or the service itself; another project is refused, a missing row is reported and changes nothing |
| `Sessions.ForceIsIdempotent` | src/agent/services.py:787-789 | forcing twice is forcing once |
| `Sessions.UnregisterTold` | src/agent/services.py:728-852 | exactly that row and its sessions go, by force only for a caller that is not bound to another project |
| `Sessions.RemoveOfflineTold` | src/agent/services.py:866-875 | exactly the offline rows of the project and their sessions go |
| `Sessions.AgentService.RemoveOfflineAgents` | src/agent/services.py:866-875 | exactly the offline rows of the project go, with their sessions |
| `Sessions.OnlineMeansOneSession` | src/agent/repository.py:35-65 | over every run a worktree is online with one active session or offline with none, and a path of a project has one row |
| `Registrations.OneActiveExactly` | src/agent/services.py:147-163 | over all interleavings of the repository calls of any number of registrations and sweeps of one worktree, at most one session is ever active if and only if there is at most one registration |
| `Registrations.OverlapLocksOut` | src/agent/services.py:158-163 | with two or more registrations there is a run after which two new sessions stay active and no other registration ever succeeds, as long as neither of the two times out |
| `Registrations.ThirdRaises` | src/agent/services.py:158-163 | there a further registration raises as soon as it reads the active session |
| `Registrations.SweepStrands` | src/agent/services.py:879-890 | a sweep that listed the old session takes the row offline after a new registration has finished |
| `Registrations.LateSweepsAreSilent` | src/agent/services.py:879-890 | over every run of sweeps that begin after the old session has ended, neither the row nor the active sessions change |
| `Registrations.ConsistentExactly` | src/agent/services.py:879-890 | whenever nothing is under way the worktree is online with one active session or offline with none, over all these interleavings, if and only if there are only sweeps, or one registration and no sweep that finds its old session timed out |
| `Sessions.NobodyElseDropsIt` | src/agent/services.py:866-890 | an agent that reported at some time stays online under everything but its own removal and sweeps for later heartbeats |
| `Sessions.RegisterReconnects` | src/agent/repository.py:23-56 | registering a path again keeps its key and a known branch name |
| `Replies.MatchReviews` | src/gateway/review_thread_replies.py:105-138 | a turn is matched by position among the reviews of its commit, or not at all when the counts differ |
| `Replies.MatchedExactly` | src/gateway/review_thread_replies.py:105-138 | with distinct review ids a turn is matched if and only if the bot has as many reviews of the commit as there are turns, and then with the review that has as many lower ones as the turn has predecessors |
| `Replies.BuildEnrichedTurns` | src/gateway/review_thread_replies.py:92-205 | every finding with a place in a matched turn gets the author's shortened latest reply or nothing, and no other key exists |
| `Replies.ResponsesAreTheAuthors` | src/gateway/review_thread_replies.py:145-203 | a response is the shortened reply with the highest id by the author on a root comment of that review at that file and line |
| `Replies.RespondsExactly` | src/gateway/review_thread_replies.py:145-203 | the response is the shortened latest answer of the author to the thread that carries the finding, the first with its text or else the only one at its place; there is none if and only if there is no such thread or no answer |
| `Replies.PostedTextIsExpected` | src/gateway/review_engine.py:1074-1093 | a finding is looked for under the text its inline comment was posted with |
| `Replies.MatchedWithOwnReview` | src/gateway/review_thread_replies.py:120-138 | if turns are replayed in the order they posted, a matched turn has its own review, even when some that posted are missing |
| `Replies.OwnReviewsExactly` | src/gateway/review_thread_replies.py:120-138 | with equal counts all turns have their own reviews if and only if they are replayed in posting order |
| `Replies.RetriedTurnsAreSwapped` | src/gateway/review_thread_replies.py:136-138 | a lower turn that is retried and posts after a higher one is matched with the other's review |

## Left out

- Text of prompts, comments, log lines and review bodies: wording without a property.
- GitHub, git, subprocess and health-probe calls: their results are parameters.
- SQL, JSON and Pydantic parsing, and the regular expressions for skippable paths: library behaviour; the path predicate is arbitrary.
- HTTP routes, authentication, the command line, the MCP server and the frontend: thin wrappers.
- Importing plans, roll-up of feature status, number assignment and retirement of tasks: the code keeps no invariant on them that the gate needs.
- `seconds_until_next_slot`: it only words a comment.
- Unicode case folding and digits: finding titles are lowered on A to Z only, and hunk headers count ASCII digits only.
- Hosts that run opencode alone: the interleaving model always goes on to the codex stage.
- Rows without a session number from before sessions were counted: the serial model reads them, the interleaving model creates none.
- Interleavings.CiDispatchedAtMostOnce: is stated for a budget of one codex turn, because it is false for every larger one (`CiOnceExactly`).
- ReviewLoops.PassIsForGood: starts from a badge that is PASS already; an abandoned running row or a persistence error on the agreeing turn keeps it from being so (`PassExactly`).
- RateLimits.RollingWindowSafety: bounds windows shortened by the lateness of retries, because the full hour fails for late ones (`FullHourExactly`).
- Replies.MatchedWithOwnReview: assumes replay in posting order, because positional matching is wrong otherwise (`OwnReviewsExactly`).
- Moves made on the board by people: they pass no gate.
- The other transitions of `update_task_status`, close-off tasks and the pull request guards: no interaction with the gate.
- Stored findings with a severity outside the five or fields of the wrong type: only a missing file or line is modelled.
- Other task types than spec, plan and impl: all behave like a plain task.
- Agent tokens, current-task pointers of sessions, shutdown requests and the events that registration publishes.
- Reconnecting to the database inside the event bus: a listener that is away is one the notification does not reach.
- Database transactions below one repository call: each call is one atomic step.
- Dependencies.GraphsStayAcyclic: takes the search and the insertion of one addition as one step, although they are several repository calls; `OverlapExactly` says what two that overlap can do.
- UnifiedDiffs.LineNumbersMeanWhatTheySay: assumes no line break inside a line but a final carriage return, because other breaks can make the numbers wrong (`NumbersRightExactly`), and that headers name their paths (`GitHeaderExactly`).
- Sessions.OnlineMeansOneSession: takes each registration, sweep and removal as one step, although each is several repository calls; `Registrations` says what overlapping registrations and sweeps can do.
- Registrations.ConsistentExactly: is about a worktree that starts online with one session, without heartbeats or removals in between.
- SoloRuns.SoloHandlerRuns: says that some steps of the handler make the run; the interleaving model leaves open whether a turn agrees, so it has more behaviours than runs.
- Registrations.OverlapLocksOut: is about sweeps that find only the first session timed out; heartbeats that stop free the worktree again.
- ReviewCaps.CapBoundsReviews: is about runs that do not overlap; handlers that overlap can share a session number.
- Git configured not to quote non-ASCII paths (`core.quotePath`): the header model is its default.
