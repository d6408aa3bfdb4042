# DRMAAv2 reference implementation: model and proofs

The repository is the reference implementation of the DRMAAv2 C binding (GFD.198) of the root
specification GFD.194. It maps jobs to forked local processes and keeps all its state in a database.
This project models the parts whose behaviour the code itself decides and proves what they keep:

- **The life cycle of jobs** (`LifeCycle`, `LifeCycleRuns`, `LifeCycleSteps`, `LifeCycleAtomic`, `LifeCycleTable`,
  `LifeCycleNotes`, `Waiting`): a step
  system over the job table with any number of submitters, forked monitors, job processes and callers
  of hold, release, suspend and resume. Each database transaction is one step. A state call reads in
  one step and writes in a later one; a second model makes each call one step, is proved to be a
  restriction of the first, and keeps more. What is kept is one half; the other is that every step can be
  taken and stores what it says (`LifeCycleSteps`, `LifeCycleTable`).
- **Bulk submission** (`Replace`, `Placeholders`, `IndexTwo`, `PathSizes`, `BulkIndices`, `WrappedLoop`,
  `Submission`, `Bulk`, `StoredPaths`, `Tables`, `Interleaving`, `StateCalls`): the two-pass `str_replace` into
  an exactly sized buffer, the strided loop over 64-bit indices that overwrites and restores the caller's template, the rows
  it adds, and the job array that reads back as the same jobs.
- **Filters** (`QueryText`, `Sql`, `FilterParsing`, `FilterMeaning`, `FilterReading`, `JobQueries`, `SessionJobs`,
  `Timestamps`, `SourceTexts`): the query text that `get_jobs` prints, a reference parser and evaluator for it, and the
  proof that the text selects exactly the rows that match the filter.
- **Containers and codecs** (`LinkedLists`, `Pointers`, `DictionaryModel`, `Dictionary`, `ListCodec`,
  `Strings`): singly linked lists and dictionaries that refine sequences and maps, with a ledger of the
  pointers they release, and the split/join pair with which lists are stored in one column.

Where the source changes objects in place the model has classes with the same fields; loops are loops.
The functions and lemmas beside them say what the code computes without repeating it.

What the proofs show to be different from what a reader of the interface may expect:

- A DONE or FAILED row can be overwritten, and then no later wait for termination succeeds
  (`LifeCycleRuns.DoneCanBeLost`, `LifeCycleRuns.LostForever`). It stays for good if and only if no state call
  is between its read and its write when the final state is stored (`LifeCycleRuns.FinalStateStaysIff`).
- Expansion of `$DRMAA2_INDEX$` for index 2 can form the placeholder again, and for no other index
  (`Placeholders.CleanForEveryTemplateIff`); which templates end up with one is told by
  `IndexTwo.DirectoryKeepsIndexIff` and `IndexTwo.PathKeepsIndexIff`.
- A job's template is looked up by the id of the job, which is the id of its template row only if no job
  array was saved before the job (`Tables.Database.JobTemplateIsOwnIff`; `Bulk.BulkThenJob` reads the array's;
  `Interleaving.IdsAgreeIff` has the condition for submissions that interleave).
- A filter as created is not empty: it asks for the state UNDETERMINED and so never finds a job
  (`FilterMeaning.FreshFilter`, `JobQueries.FreshFilterFindsNothing`).
- A quoted filter value that names a column is compared as that column
  (`FilterMeaning.QuotedValueIff`), and one that holds a quote is never read back as itself
  (`FilterParsing.ParseQueryIff`, `FilterReading.FilterReadBackIff`).
- A text in which a match ends more than INT_MAX characters behind the match before it is beyond the `int`
  arithmetic of the copying pass of `str_replace` (`Replace.StepsExactIff`, `Replace.CopiesInsideIff`).
- A bulk submission with a step that is zero, or that wraps behind the last index, does not end where its
  range ends (`BulkIndices.LoopEndsIff`); whether it ends at all is `WrappedLoop.LoopEndsAtAllIff`.
- Notifications of different processes can overtake each other and then tell another state than the stored
  one (`LifeCycleNotes.OvertakingMisleads`, `LifeCycleNotes.TellsInEveryOrderIff`).
- An empty list attribute, or one whose items hold `|`, does not survive storage, and a set deadline ends the
  process that reads it back (`Tables.TemplateRoundTripIff`).
- A call on a job array answers SUCCESS whatever its single calls answered
  (`StateCalls.Library.JArrayChangeState`).

## Model

| member | source | states |
|---|---|---|
| Strings.Find | drmaa2.c:572-587 | `strstr`: None exactly when nothing occurs, otherwise the leftmost occurrence |
| Strings.DecimalRoundTrip | drmaa2-persistence.c:990-1001 | reading a printed row id with `atoll` gives the number back, for every integer |
| Strings.DecimalInjective | drmaa2-specific.c:272-282 | two row ids that print alike are equal |
| Replace.ReplaceIsWeave | drmaa2.c:556-595 | the result is the pieces between the matches woven with the replacement, and the same pieces woven with the pattern are the original |
| Replace.PiecesAreLeftmost | drmaa2.c:572-592 | no piece holds the pattern and each match is the leftmost one behind the match before it: no match is missed and none overlaps |
| Replace.ReplaceLength | drmaa2.c:581-581 | the length of the result is exactly \|orig\| + (\|with\| - \|rep\|) * matches, also when the factor is negative |
| Replace.ReplaceKeepsCString | drmaa2.c:584-593 | replacement puts no terminator into a C string |
| Replace.CountMatches | drmaa2.c:572-574 | the counting pass counts the matches of the reference definition |
| Replace.MallocSize | drmaa2.c:581-581 | the wrapping `size_t` sum is exactly the size of the result and its terminator, when lengths, count and product fit an `int` |
| Replace.FillBuffer | drmaa2.c:585-593 | the copying pass, with its lengths and their sum in `int`, sees the same matches; when every front with its match fits an `int`, every store, intermediate terminators included, is inside the buffer, which ends up holding the replacement and one terminator |
| Replace.StepsExactIff | drmaa2.c:586-592 | for texts of any length every step of the copying pass copies exactly its front and moves exactly behind its match if and only if no front together with the pattern is longer than INT_MAX |
| Replace.CopiesInsideIff | drmaa2.c:562-591 | for texts below 4 GB every copy in front of a match is within the buffer and every `int` sum that moves the cursor is defined, if and only if no front together with the pattern is longer than INT_MAX |
| Replace.LongFrontFails | drmaa2.c:588-589 | a text with 2^31 characters in front of a match, whose lengths, count and product all fit, for which the copy is longer than the buffer |
| Replace.BoundaryFrontFails | drmaa2.c:591-591 | a text with one character less, for which the copy is exact and the sum that moves the cursor overflows |
| Replace.StrReplace | drmaa2.c:556-595 | NULL gives NULL; otherwise, for lengths, count, product and fronts with their match that fit an `int`, a fresh buffer that holds the leftmost non-overlapping replacement and its terminator and nothing else |
| PathSizes.MatchesBound | drmaa2.c:572-574 | matches do not overlap: count times length of the pattern is within the length of the text |
| PathSizes.ShortPathFits | drmaa2.c:560-593 | paths of up to 65536 characters stay within `int` and `size_t` in all three passes, fronts included, for every 64-bit index |
| Placeholders.SurvivesIff | drmaa2.c:631-654 | a placeholder is in the result of a pass exactly when it lay in a piece between two matches before it |
| Placeholders.LaterPassesCreateNone | drmaa2.c:632-654 | the passes that insert `~` and `.` never create a placeholder and leave none of their own, for every text |
| Placeholders.WorkingDirectoryIsClean | drmaa2.c:631-633 | for every template the expanded working directory holds no HOME_DIR, and no INDEX for every index but 2 |
| Placeholders.PathIsClean | drmaa2.c:635-654 | for every template the other expanded paths hold no HOME_DIR and no WORKING_DIR, and no INDEX for every index but 2 |
| Placeholders.IndexTwoFormsIndexIff | drmaa2.c:631-631 | for index 2 the index pass alone leaves an INDEX exactly when two neighbouring pieces end and begin with its two halves (a seam) |
| Placeholders.WitnessKeepsIndex | drmaa2.c:631-654 | `$DRMAA$DRMAA2_INDEX$_INDEX$` expands to an INDEX for index 2 |
| IndexTwo.PassKeeps | drmaa2.c:632-654 | a later pass keeps an INDEX whose two `$` it does not consume, and puts it where the scan puts that place |
| IndexTwo.PassLeaves | drmaa2.c:632-654 | every INDEX behind a later pass stood in front of it, was spared by it, and is where the scan puts it |
| IndexTwo.DirectoryKeepsIndexIff | drmaa2.c:631-633 | for index 2 the expanded working directory holds an INDEX if and only if the template has a seam that the HOME_DIR pass spares: no HOME_DIR begins at its end, and an even number of HOME_DIRs, chained by shared `$`, ends at its start |
| IndexTwo.PathKeepsIndexIff | drmaa2.c:635-654 | for index 2 the other expanded paths hold an INDEX if and only if the template has a seam that the HOME_DIR pass spares and the WORKING_DIR pass spares where the first has put it |
| IndexTwo.HomeCanUndo | drmaa2.c:631-633 | a template with a seam whose INDEX the HOME_DIR pass takes away again |
| Placeholders.CleanForEveryTemplateIff | drmaa2.c:631-654 | expansion leaves no INDEX in any template if and only if the index is not 2 |
| BulkIndices.VisitedIs | drmaa2.c:609-681 | iteration k of the unsigned loop sees begin + k * step, for every k below the count |
| BulkIndices.LoopEndsIff | drmaa2.c:609-681 | the loop visits exactly the indices of the range in order and ends after (end - begin) / step + 1 iterations if and only if the last index plus step does not wrap |
| BulkIndices.ZeroStepNeverEnds | drmaa2.c:618-681 | with step 0 the loop never ends |
| WrappedLoop.VisitedBelowTop | drmaa2.c:618-681 | the loop only ever sees indices up to the top of the residue class of its first index modulo gcd(step, 2^64) |
| WrappedLoop.TopIsVisited | drmaa2.c:618-681 | some iteration sees this top, wrapped as often as it takes |
| WrappedLoop.LoopEndsAtAllIff | drmaa2.c:618-681 | the loop ends at all, in its range or behind a wrap, if and only if 2^64 - g + begin mod g lies behind the end, with g = gcd(step, 2^64), for every step including 0 |
| Submission.CategoryIsSupported | drmaa2.c:499-508 | the search loop finds the category exactly when it is in the list |
| Submission.RunJob | drmaa2.c:492-553 | a job is accepted exactly when the session exists, its category is unset or supported, and email, both email flags, slots, deadline and account are unset, each named in the clause of its error; a refused job leaves no row; an accepted one adds its template and one row with its session and template id, which at return shows a state and the pid, and returns its handle; every other row shows what was inserted and what was written once |
| Submission.SupportedReadsBackIff | drmaa2-persistence.c:859-873 | the template of an accepted job never ends the process that reads it, and reads back as it was if and only if its arguments and candidate machines survive storage |
| Submission.Enter | drmaa2.c:550-552 | the rows are added and the pid is waited for; other processes may have stored columns of any row meanwhile, and nothing stored is lost |
| Submission.Queue | drmaa2-specific.c:282-289 | what the submitter writes itself: template row, job row, state QUEUED |
| Bulk.Heap.Free | drmaa2.c:25-30 | only a string that the loop made and has not freed can be freed |
| Bulk.Heap.Replace | drmaa2.c:631-654 | a replaced path is a new string on the heap; NULL stays NULL |
| Bulk.ExpandedWorkingDirectory | drmaa2.c:631-633 | both passes in order, the string between them freed, one new string left |
| Bulk.ExpandedPathField | drmaa2.c:635-640 | all three passes in order, the strings between them freed, one new string left |
| Bulk.Expand | drmaa2.c:631-654 | the template now holds the four expanded paths, in different new strings, and all its other attributes are as before |
| Bulk.CleanUp | drmaa2.c:659-674 | the four fields hold the caller's own pointers again and each expanded string is freed, none twice |
| Bulk.ExpandedIsAcceptable | drmaa2.c:498-546 | expansion changes nothing that the checks of a job look at |
| Bulk.RunOne | drmaa2.c:619-681 | one iteration adds the job with the template expanded for its index, with a state and a pid at its end, and leaves the template's pointers and the heap as they were |
| Bulk.SubmitAll | drmaa2.c:618-682 | the loop ends (measure end - index), adds one template row and one job row for each index in order, each with a state and a pid, and collects exactly the new ids |
| Bulk.EnterArray | drmaa2.c:684-685 | the array gets a template row of its own and a row with the joined ids |
| Bulk.RunBulkJobs | drmaa2.c:598-699 | INVALID_ARGUMENT exactly for a bad range, with nothing changed; otherwise (end - begin) / step + 1 job rows, each with the session, the id of its own template, a state and a pid, all the template rows and the array row that are added, the handle of the array, the caller's four pointers and the heap as they were |
| Bulk.StoredPathsAreClean | drmaa2.c:631-657 | no job row's template is stored with a placeholder left in a path, but for index 2 |
| StoredPaths.StoredAsItIs | drmaa2-persistence.c:296-313 | a template that is stored has every attribute in the column of its name, lists joined with `\|` |
| StoredPaths.StoredAttributes | drmaa2.c:631-657 | in the template of each job of an array every path is what the passes for its index, with the texts of the source, make of the same path of the caller's template; all other attributes are the caller's |
| StoredPaths.PlainPathsAreKept | drmaa2.c:631-657 | a path without placeholders is stored unchanged in the same attribute, for every index |
| StoredPaths.DirectoryWithOne | drmaa2.c:631-633 | in any text without `$` an INDEX becomes the digits of the index and a HOME_DIR `~`; a WORKING_DIR stays |
| StoredPaths.PathWithOne | drmaa2.c:635-654 | in the other paths an INDEX becomes the digits, a HOME_DIR `~` and a WORKING_DIR `.` |
| StoredPaths.OrdinarySubmission | drmaa2.c:598-699 | what suffices for a bulk submission: a known session, an accepted template, paths of up to 65536 characters, a step and a range that ends a step below 2^64 |
| Bulk.IdsReadBack | drmaa2-persistence.c:1010-1063 | joining the ids, storing and splitting them gives the same ids in order |
| Bulk.SubmitAndRead | drmaa2.c:372-388 | end to end: the jobs read from the array of a bulk submission are exactly (end - begin) / step + 1, in order, with the ids of the rows that were added and the session's name, and its template is its own |
| Bulk.BulkThenJob | drmaa2-persistence.c:885-898 | a job submitted behind the first array: the look-up of its template answers with the array's template, not with its own |
| Tables.TemplateRoundTripIff | drmaa2-persistence.c:797-898 | a stored template reads back as it was if and only if its list attributes are unset, or non-empty without separators, its deadline is unset and its number of slots is an `int`; a set deadline ends the reading process or is lost |
| Tables.Database.SaveJTemplate | drmaa2-persistence.c:296-313 | appends the stored form of the template; the id is max + 1 |
| Tables.Database.SaveJob | drmaa2-persistence.c:286-293 | appends a row with the session, the template id and NULL everywhere else |
| Tables.Database.SaveJArray | drmaa2-persistence.c:1010-1018 | appends a row with the ids joined into one column |
| Tables.Database.RequestReservation | drmaa2.c:298-322 | INVALID_SESSION exactly for an unknown session; otherwise one template row and one row named after its own id, and the pairing of tables is kept |
| Tables.Database.SaveState | drmaa2-persistence.c:1000-1007 | sets the state of that row and nothing else; an unknown id changes nothing |
| Tables.Database.SavePid | drmaa2-persistence.c:1083-1089 | sets pid and dispatch time of that row in one step and nothing else |
| Tables.Database.SaveExitStatus | drmaa2-persistence.c:1092-1098 | sets exit status and finish time of that row in one step and nothing else |
| Tables.Database.AwaitPost | drmaa2-specific.c:299-303 | while a submitter waits, any rows that the life cycle can leave are possible: keys stay, nothing stored is lost, and state, pid and dispatch time of the job are stored |
| Tables.Database.GetJobTemplate | drmaa2-persistence.c:885-898 | for every job the look-up answers with a template, and with the one saved for the job when no array was saved before it |
| Tables.Database.GetRTemplate | drmaa2-persistence.c:737-746 | for every reservation the look-up answers with the template saved for it |
| Tables.Database.RowsOwned | drmaa2.c:684-685 | over submissions that do not interleave, every template row was saved for one job or one array, and the rows of both come in order |
| Tables.Database.JobTemplateIsOwnIff | drmaa2-persistence.c:885-893 | over submissions that do not interleave, the look-up of a job's template reads the row saved for the job if and only if no job array was saved before the job; otherwise it answers with the row of an earlier job or of such an array |
| Tables.Database.JobTemplatesDiffer | drmaa2.c:550-551 | no two jobs share a template row |
| Tables.Database.ArrayTemplateIsOwn | drmaa2-persistence.c:1065-1073 | the look-up of an array's template always reads a row that belongs to this array alone, to no job and to no other array |
| Tables.Database.ReservationTemplateIsOwn | drmaa2-persistence.c:737-741 | the look-up of a reservation's template always reads the row saved for it |
| Tables.Database.GetJobsOfJArray | drmaa2-persistence.c:1045-1063 | one handle for each stored id, in order, with the array's session |
| StateCalls.Library.Notify | drmaa2-specific.c:24-31 | one notification when a callback is registered, none otherwise |
| StateCalls.Library.JSuspend | drmaa2.c:780-793 | refines the protocol's decision: a RUNNING row becomes SUSPENDED, with SUCCESS and a notification of it; any other is left alone, with INVALID_STATE and no notification |
| StateCalls.Library.JResume | drmaa2.c:796-809 | the same for resume: a SUSPENDED row becomes RUNNING, with SUCCESS and a notification of it; any other is left alone, with INVALID_STATE and no notification |
| StateCalls.Library.JHold | drmaa2.c:812-831 | the same for hold: QUEUED becomes QUEUED_HELD and REQUEUED becomes REQUEUED_HELD, which is notified as REQUEUED; INVALID_STATE for any other |
| StateCalls.Library.JRelease | drmaa2.c:834-853 | the same for release: QUEUED_HELD becomes QUEUED and REQUEUED_HELD becomes REQUEUED; INVALID_STATE for any other |
| StateCalls.Library.JTerminate | drmaa2.c:856-865 | the group of the stored pid is signalled, no row changes and the answer is SUCCESS |
| StateCalls.Library.JArrayChangeState | drmaa2.c:390-398 | the call on each job of the array in order, with the rows, the notifications and the last error that these calls leave; the answer is SUCCESS |
| StateCalls.CallOneAt | drmaa2.c:780-853 | what a single call does to each row of the table |
| StateCalls.ArrayCallIsEachCall | drmaa2.c:390-418 | with distinct jobs each row of the array changes exactly as by a call of its own and no other row changes |
| StateCalls.ArrayNotesAreEachCall | drmaa2.c:390-418 | with distinct jobs the notifications are, in the order of the array, those of calls of their own |
| StateCalls.NotesInOrder | drmaa2.c:390-398 | the notifications of two stretches of an array follow each other in its order |
| StateCalls.ArrayErrorIsAnyCall | drmaa2.c:390-418 | with distinct jobs the last error becomes INVALID_STATE exactly when a call of its own on some job is refused |
| LifeCycle.SemNameInjective | drmaa2-specific.c:272-274 | two jobs never share a semaphore name |
| LifeCycle.OwnKeepsJob | drmaa2-specific.c:213-305 | every step of submitter, monitor and job process keeps the invariant of its job and of its semaphore |
| LifeCycle.StepKeepsInv | drmaa2-specific.c:213-305 | every step of any process or caller keeps the invariant of the whole system |
| LifeCycle.RunKeepsInv | drmaa2-specific.c:213-305 | the invariant holds in every state of every run |
| LifeCycleRuns.FinalRowIsComplete | drmaa2-specific.c:233-253 | a row that shows DONE or FAILED has pid, dispatch time and finish time, its process is dead and its monitor made exactly one final write; a process that exited shows DONE and the lower eight bits of its exit code, one that a signal ended FAILED and 0 |
| LifeCycleRuns.ExitCodesShow | drmaa2-specific.c:238-244 | two DONE rows show the same exit status if and only if the exit codes agree in their lower eight bits; codes below 256 are told apart |
| LifeCycleRuns.RequeuedIsNeverStored | drmaa2.c:812-853 | REQUEUED, REQUEUED_HELD and UNDETERMINED are never stored, so no call notifies another state than it writes |
| LifeCycleRuns.NotificationsTellState | drmaa2-specific.c:24-31 | with a callback from the start, replaying a job's notifications from QUEUED gives its stored state, in every run |
| LifeCycleNotes.DelayedKeepsInv | drmaa2-specific.c:223-253 | with notifications in steps of their own the invariant of the protocol holds in every state of every run |
| LifeCycleNotes.TellsInEveryOrderIff | drmaa2-specific.c:24-31 | with notifications in steps of their own, replaying them gives the stored state in whatever order the due ones are sent, if and only if each due one for the job carries this state, or none is due and the last one sent told it |
| LifeCycleNotes.EveryOrderIsSent | drmaa2-specific.c:24-31 | every order of the notifications that are due is the one in which some continuation of the run sends them |
| LifeCycleNotes.OvertakingMisleads | drmaa2-specific.c:226-228 | a run behind which the row shows SUSPENDED and the notifications can tell RUNNING |
| LifeCycleRuns.StartedStateIsSound | drmaa2-specific.c:223-230 | a stored state that is not a queued one means the process has written RUNNING or has ended |
| LifeCycleRuns.ReturnedJobHasPid | drmaa2-specific.c:295-304 | once a submission has returned, its row holds the job's pid, a dispatch time and a state, so terminate never reads a NULL pid |
| LifeCycleRuns.StepGrows | drmaa2-persistence.c:1000-1098 | no step of any process or caller takes a stored column from any row, or stores another value in one that is not the state |
| LifeCycleRuns.WrittenOnce | drmaa2-persistence.c:1083-1098 | pid, dispatch time, exit status and finish time are written once: what a row shows of them it shows in every later state of the run |
| LifeCycleRuns.WaitLeavesRows | drmaa2-specific.c:295-304 | for every run, what a returned submission finds in the table has kept everything stored in any earlier state, and shows its own state, pid and dispatch time |
| LifeCycleRuns.SubmissionProgresses | drmaa2-specific.c:269-305 | with any number of submitters, the next step of a submission is always enabled and brings it nearer to its return; the exclusive open never finds its name taken |
| LifeCycleRuns.NoStepDelays | drmaa2-specific.c:269-305 | no step of anyone moves a submission back, and the step that is due moves it on |
| LifeCycleRuns.SubmissionReturns | drmaa2-specific.c:269-305 | over any stretch of a run, as many due steps as are left, and never more than eight, return the submission, whatever other processes and callers do in between |
| LifeCycleRuns.LostForever | drmaa2.c:780-853 | a final state that was overwritten never comes back in the run |
| LifeCycleRuns.OverwrittenByEarlierRead | drmaa2.c:780-853 | a DONE or FAILED row is overwritten only by a state call whose read came before the monitor's final write; its decision on what it read has been pending unchanged ever since and is what is stored |
| LifeCycleRuns.FinalStateIsLostIff | drmaa2.c:780-853 | a step changes a DONE or FAILED row if and only if it is the write of a state call on that job |
| LifeCycleRuns.FinalStateStays | drmaa2.c:780-853 | a final state on which no call is pending stays in every later state of the run |
| LifeCycleRuns.FinalStateStaysIff | drmaa2.c:780-853 | DONE and FAILED stay in every continuation of a run if and only if no call is pending on the job when they are stored |
| LifeCycleRuns.DoneCanBeLost | drmaa2.c:780-788 | a run from the empty database in which suspend turns DONE into SUSPENDED |
| LifeCycleRuns.LostJobIsNeverSeenToEnd | drmaa2.c:902-921 | a wait for the end of a job whose final state was overwritten never sees it end |
| LifeCycleRuns.SeenStartIsSound | drmaa2.c:883-899 | a wait for the start succeeds only when the process has written RUNNING or has ended |
| LifeCycleRuns.PollsSeeEnd | drmaa2.c:902-921 | a wait for the end on which no call was pending at the monitor's final write ends with the first poll behind it, whatever anyone does later, on DONE for a process that exited and on FAILED for one that a signal ended |
| LifeCycleSteps.CallsTakeEffect | drmaa2.c:780-853 | in every reachable state a caller can read and write: suspend, resume, hold and release store and notify their state on a RUNNING, SUSPENDED, QUEUED and QUEUED_HELD job and change nothing on any other |
| LifeCycleSteps.OwnStepStores | drmaa2-specific.c:213-289 | every step of a job's processes in a run: the columns of its row it has written and with what, no other row, no pending call, and the notifications it has sent |
| LifeCycleSteps.EndProgresses | drmaa2-specific.c:236-253 | in every reachable state a monitor whose process is dead can reap it and then store the exit status, the finish time and DONE or FAILED, as the process ended |
| LifeCycleSteps.MonitorIsNeverStuck | drmaa2-specific.c:231-253 | behind the end of its process a monitor can take its next step at each of its program points, in every reachable state |
| LifeCycleSteps.ProcessSteps | drmaa2-specific.c:220-230 | a job process can write RUNNING first and be ended by any signal at any time, and exits with any code only behind that write |
| LifeCycleSteps.SemaphoreLives | drmaa2-specific.c:272-303 | in every reachable state a job's semaphore exists from its open until its unlink and at no other time; its value is 1 exactly between the post and the wait |
| LifeCycleAtomic.WholeIsReadThenWrite | drmaa2.c:780-853 | a call in one step is its read and its write with nothing in between |
| LifeCycleAtomic.AtomicRunIsSplitRun | drmaa2.c:780-853 | every run of the one-step model is a run of the split model between the same states |
| LifeCycleAtomic.AtomicRunKeeps | drmaa2-specific.c:213-263 | in every one-step run a process that has written RUNNING never shows a queued state again |
| LifeCycleAtomic.AtomicChangeIsTransition | drmaa2.c:780-853 | every change of a stored state in a one-step run is in the transition table |
| LifeCycleAtomic.FinalStatesAbsorb | drmaa2-specific.c:241-253 | DONE and FAILED are absorbing over all one-step runs |
| LifeCycleAtomic.StartedStateIsExact | drmaa2-specific.c:223-230 | while the process lives, the row shows a queued state if and only if RUNNING has not been written |
| LifeCycleTable.CallsAreUndone | drmaa2.c:780-853 | in every state of every one-step run suspend, resume, hold and release succeed exactly on a RUNNING, SUSPENDED, QUEUED and QUEUED_HELD job, notify what they store, and each is undone by its counterpart; everywhere else nothing changes |
| LifeCycleTable.TransitionsAreExact | drmaa2-specific.c:213-289 | the stored state of a job can change from one to another in a one-step run if and only if the change is one of the thirteen that are listed |
| LifeCycleTable.PollSeesStartIff | drmaa2.c:883-899 | while the process lives, a poll for the start succeeds if and only if the process has taken the step that writes RUNNING |
| LifeCycleTable.PollSeesEndIff | drmaa2.c:902-921 | in one-step runs a poll for the end succeeds if and only if the monitor has taken the step that makes the final write |
| Waiting.WaitAny | drmaa2.c:702-759 | the first job in list order that shows DONE or FAILED (a state other than QUEUED and QUEUED_HELD, for the start) in the last pass; TIMEOUT means that none did and the time is up; in all earlier passes none did and the time was not up; ZERO_TIME (0) polls once and INFINITE_TIME (-1) never times out |
| Waiting.WaitOne | drmaa2.c:883-921 | SUCCESS exactly when the last poll shows DONE or FAILED (a state other than QUEUED and QUEUED_HELD, for the start); TIMEOUT only when the time is up; in all earlier polls it did not and the time was not up; ZERO_TIME (0) polls once and INFINITE_TIME (-1) never times out |
| Waiting.EndsIff | drmaa2.c:718-724 | for a clock that gains a second for each sleep, a loop ends exactly when the timeout is finite or some job qualifies in some pass, and a finite timeout bounds the passes |
| LinkedLists.List.constructor | drmaa2-list.c:108-138 | a fresh, valid, empty list |
| LinkedLists.List.Acyclic | drmaa2-list.c:43-98 | the chain of a valid list visits no item twice |
| LinkedLists.ListSize | drmaa2-list.c:101-105 | `size` is the length of the chain; -1 for NULL |
| LinkedLists.ListGet | drmaa2-list.c:28-40 | the element at the position, NULL outside the list |
| LinkedLists.ListAdd | drmaa2-list.c:43-67 | appends to the sequence and keeps the chain valid; INVALID_ARGUMENT for NULL |
| LinkedLists.ListDel | drmaa2-list.c:69-98 | removes exactly the element at the position, keeps the chain valid and calls the callback once, on the datum that goes; otherwise INVALID_ARGUMENT and nothing changed |
| LinkedLists.ListFree | drmaa2-list.c:9-25 | the callback runs once on each datum, in order, if there is one |
| DictionaryModel.PutRefines | drmaa2-dict.c:104-135 | a set updates the map at its key, keeps keys unique, keeps their order and puts a new key last |
| DictionaryModel.RemoveRefines | drmaa2-dict.c:78-102 | a delete removes the key from the map and leaves the order of the others |
| DictionaryModel.LookupRefines | drmaa2-dict.c:64-75 | a look-up answers with what the map holds, for every key |
| DictionaryModel.RunsRefineMaps | drmaa2-dict.c:78-135 | every sequence of sets and deletes leaves the map that the same operations make |
| DictionaryModel.ReleasedAtMostOnce | drmaa2-dict.c:17-135 | where no pointer is stored twice, none is released twice and no entry holds a released one |
| Dictionary.DictGet | drmaa2-dict.c:64-75 | the value of the key, NULL without one |
| Dictionary.DictHas | drmaa2-dict.c:50-61 | true exactly when the key is stored |
| Dictionary.DictList | drmaa2-dict.c:36-47 | the keys in insertion order, in a fresh list |
| Dictionary.FreeEntry | drmaa2-dict.c:121-121 | a call of the free callback demands pointers that were stored and not released as often as they were stored |
| Dictionary.Set | drmaa2-dict.c:104-135 | the chain refines the set; takes the value, and the key when it is new; the callback gets exactly a value that is replaced |
| Dictionary.DictSet | drmaa2-dict.c:104-135 | INVALID_ARGUMENT for NULL, otherwise the set |
| Dictionary.Delete | drmaa2-dict.c:78-102 | the chain refines the delete; the callback gets exactly the key and the value of the entry that goes |
| Dictionary.DictDel | drmaa2-dict.c:78-102 | SUCCESS exactly when the key was stored |
| Dictionary.DictFree | drmaa2-dict.c:17-33 | after the callbacks of the loop every pointer that was ever stored has been released as often as it was stored |
| ListCodec.JoinSplit | drmaa2-list.c:141-185 | joining what was split gives the text back, for every text and separator |
| ListCodec.SplitItems | drmaa2-list.c:141-162 | no item holds the separator and there is one item more than separators |
| ListCodec.SplitJoinIff | drmaa2-list.c:141-185 | splitting what was joined gives the list back if and only if it is non-empty and no item holds the separator |
| ListCodec.StringSplit | drmaa2-list.c:141-162 | the loop computes the split; NULL gives NULL |
| ListCodec.StringJoin | drmaa2-list.c:164-185 | fills exactly its computed buffer with the joined text and its terminator; NULL and the empty list give NULL |
| Timestamps.PaddedOrder | drmaa2-persistence.c:488-499 | numbers of the same width order as texts as they order as numbers |
| Timestamps.TextOrderIsTimeOrder | drmaa2-persistence.c:488-499 | for times with four-digit years text order is chronological order |
| QueryText.ClausesLength | drmaa2-persistence.c:388-403 | the space for the fields exceeds their text by one for each `=` |
| QueryText.BuildQueryString | drmaa2-persistence.c:381-436 | prints the query into exactly the required space minus one character for each `=`; the terminator stored last falls behind the text, also for the empty dictionary; NULL copies the start |
| FilterParsing.ReadQuotedNever | drmaa2-persistence.c:424-426 | a quoted value that holds a quote is never read back as itself |
| FilterParsing.ParseQueryIff | drmaa2-persistence.c:352-436 | the printed query parses to exactly its key, operator, value list in order if and only if no quoted value holds a quote |
| FilterMeaning.NumeralField | drmaa2-persistence.c:460-486 | an unquoted numeral selects exactly the rows that hold its number, or its decimal text in a text column |
| FilterMeaning.TimeField | drmaa2-persistence.c:488-499 | `>=` on a stored time selects exactly the rows at or after the given time, and never a NULL |
| FilterMeaning.QuotedValueIff | drmaa2-persistence.c:352-365 | a quoted value is compared as text in every row if and only if it does not name a column |
| FilterMeaning.FilterSelects | drmaa2-persistence.c:439-502 | the text built from a session and a filter parses to the set fields, and a row passes exactly when it matches every one of them |
| FilterMeaning.FreshFilter | drmaa2.c:43-62 | a filter as created asks for the state UNDETERMINED and nothing else |
| FilterReading.FilterReadBackIff | drmaa2-persistence.c:439-502 | the query of a session and a filter is read back as its fields if and only if neither the session's name nor the sub-state holds a quote |
| FilterReading.QuoteInName | drmaa2-persistence.c:424-426 | a session name with a quote gives a query that is not read back as its fields |
| JobQueries.QueryFinds | drmaa2-persistence.c:439-515 | for every table the query finds exactly the matching jobs, in row order |
| JobQueries.FreshFilterFindsNothing | drmaa2.c:43-62 | in no reachable state of the life cycle does a filter as created find a job, in any session |
| JobQueries.FilterDict | drmaa2-persistence.c:455-500 | the dictionary holds exactly the fields that are set, in the order of the source |
| JobQueries.GetJobs | drmaa2-persistence.c:439-516 | for a usable session and filter, appends the handles of exactly the matching rows; for any other, whatever the database selects, and NULL when it rejects the query |
| JobQueries.JSessionGetJobs | drmaa2.c:457-468 | INVALID_SESSION exactly for an unknown session; otherwise the matching jobs of the session |
| SessionJobs.BulkAddsItsJobs | drmaa2-persistence.c:439-516 | a bulk submission adds exactly its own jobs, in order, to those that are found for its session without a filter, whatever the life cycle has stored meanwhile |
| SessionJobs.SubmitAndQuery | drmaa2.c:457-468 | end to end: after a bulk submission the session's jobs are those found before and one for each index of the range, in order |
| SourceTexts.StateCodes | drmaa2.h:6-16 | the numbers of the states in the database |
| SourceTexts.TimeText | drmaa2-persistence.c:488-499 | the text of a time, with leading zeros |
| SourceTexts.AllAsked | drmaa2-persistence.c:455-500 | the names of the columns, the texts they are compared with and the order of the conditions when everything is set |
| SourceTexts.SessionQuery | drmaa2-persistence.c:381-436 | the whole query for the jobs of a session, for every name and id |
| SourceTexts.TimeQuery | drmaa2-persistence.c:368-378 | the whole query for a time, which is asked for with `>=` and in quotes |
| SourceTexts.OrdinaryText | drmaa2-persistence.c:352-365 | a text with a character that no name has, and without quotes, can be used in a filter |
| SourceTexts.StateFilterFinds | drmaa2-persistence.c:470-473 | the query of a filter for a state alone finds exactly the jobs whose row shows that state, in row order |
| SourceTexts.ExitFilterFinds | drmaa2-persistence.c:463-466 | the query of a filter for an exit status alone finds exactly the jobs that ended with it, 0 included |
| SourceTexts.FinishFilterFinds | drmaa2-persistence.c:496-499 | the query of a filter for a finish time alone finds exactly the jobs that finished then or later |
| SourceTexts.DispatchFilterFinds | drmaa2-persistence.c:492-495 | the query of a filter for a dispatch time alone finds exactly the jobs dispatched then or later |
| SourceTexts.IdFilterFinds | drmaa2-persistence.c:461-462 | the query of a filter for a job id alone finds exactly the row with that id |
| Interleaving.RunIsCounted | drmaa2.c:550-551 | with any number of interleaved submissions there are as many template rows as jobs, arrays and submissions on their way together |
| Interleaving.RunIsOwned | drmaa2.c:550-551 | with any number of interleaved submissions every template row is with exactly one job, one array or one submission on its way |
| Interleaving.ArrayRowIsOwn | drmaa2-persistence.c:1065-1073 | however submissions interleave, an array refers for good to the template row that its own submission saved, and nothing else ever refers to it |
| Interleaving.IdsAgreeIff | drmaa2.c:550-551 | a job's id is also the id of its template row if and only if between the two transactions of its submission as many jobs are inserted as there were, at the first one, arrays and submissions on their way |
| Interleaving.IdsAgreeAlone | drmaa2.c:550-551 | without interleaving: if and only if no array was saved before |
| Interleaving.IdsCanDisagree | drmaa2.c:550-551 | a run of two submissions without any array in which each job has the id of the other's template row |
| Interleaving.SubmissionsGoOn | drmaa2.c:550-551 | no submission is held up by others, and its job or array gets the row that it has saved |

## Left out

- SQLite itself: a table is a sequence of rows whose ids count from 1 and whose statements are atomic; failed statements and the truncation of a row id to `int` in `query_rowid` are not part of this model.
- The reference evaluator's numbers are integers: numerals outside 64 bits and texts that read as fractions are not part of it.
- `fork`, `execv`, `waitpid`, signals and semaphores are steps of the protocol; a failed fork or exec, where a child goes on in a copy of its caller, is not.
- Allocation failure, object sizes in bytes (buffers are counted in characters), environment and file handling, error texts and debug output.
- The job template's remaining attributes, staging and resource limits; times set in job and reservation templates, which are stored as numbers and read back as dates.
- Filters on terminating signal, submission machine, job owner and queue name are printed without quotes; they are covered for numerals only.
- `strftime`, `gmtime`: times are broken-down times with four-digit years.
- Create and free boilerplate, the reflective interface, queue, machine and version information, reservations beyond request and template look-up, reservation names that hold a quote.
- LifeCycle.RunKeepsInv: saving a state and calling the callback are one step here; `LifeCycleNotes` has them apart. The job process's write of RUNNING is unconditional, so nothing says that a held job stays unstarted.
- LifeCycleRuns.ReturnedJobHasPid: terminate itself only sends a signal, which is a death of the process that may come at any time.
- LinkedLists.ListDel: the callback is given the datum, as in the source, where the other callers give its address; what a callback does with it is not part of this model.
- Dictionary.Set: the traversal that get, has, set and del repeat is written once, in `Dictionary.Seek`; likewise `LinkedLists.Walk`.
- Waiting.WaitAny: takes a pass at which the loop must stop; without one the source polls forever, which is when `Waiting.EndsIff` says so.
- Tables.Database.RowsOwned: submissions do not interleave; for those that do, only the ids are followed (`Interleaving.IdsAgreeIff`).
- Tables.Database.GetState: demands a stored state, because the source passes a NULL column to `atoi`.
- Tables.Database.GetJobsOfJArray: demands a row with a stored list, because the source would go on with an undefined result.
- Submission.RunJob: says of the columns that the life cycle stores only which are stored at return; their values are the subject of the life cycle model.
- Bulk.RunBulkJobs: demands an accepted template and a loop that ends with the range, because the source dereferences NULL after a refused job and goes on past the range otherwise; demands paths whose sizes C's arithmetic holds (`PathSizes.ShortPathFits`); `max_parallel` is ignored there too.
- Replace.StrReplace: demands a non-empty pattern, because the source's counting loop does not end on an empty one; for texts of 4 GB and more, whose fronts may be positive and wrong as `int`, a step that is not exact need not leave the buffer.
- Bulk.SubmitAll: the ledger covers the strings made by expansion and the index text, not the ids and handles, which are freed with the list.
- JobQueries.GetJobs: the strings of session and filter are C strings; rows have the times that the database itself wrote; what the database makes of a text outside the reference grammar is a parameter for its selection, and further statements in such a text, which are run as well, are not part of this model.
- StateCalls.Library.JArrayChangeState: no other process stores a state between the single calls; calls that interleave are the subject of the life cycle model.
