# Academic-year transition: a verified model

The repository runs the yearly cycle of a school branch. This project models the parts of it
whose guarantees span several operations, and proves those guarantees.

* **Promotion engine.** A promotion session goes through review (draft, approved), preparation
  (untouched, in progress, locked, invalid) and execution (not started, running, succeeded,
  failed). Overrides are logged, validation gives every decision a verdict, a lock stores a
  fingerprint and a confirmation token, a staleness check compares the fingerprint with the
  tables, and a background task works through the students one savepoint at a time before it
  switches the branch's current year.
* **Rollover and its undo.** The standalone rollover copies sections, moves or graduates every
  student and switches the year; undo compensates it within 24 hours.
* **Timetable, syllabus, user ids.** Clash detection and its report, reconciliation of
  syllabus units with section progress, and sequential user-id allocation.

## How the model is built

The tables of a branch are one value, `Records.World`; ids are indices into tables whose rows are
only soft-deleted. `Tables.Database` holds the same tables as mutable fields, and its methods are
the query layer. Where the source changes rows step by step the project has a class or a method
with loops (`Database`, `ExecutionRun`, `PromotionSession`, `Grid`, `Register`, `CounterTable`, and
the loops of preparation, staleness, execution and rollover). Each is proved equal to a function on
values, and the theorems are about those functions, for all tables, plans and failures.

| file | contents |
|---|---|
| `Records`, `Calendar`, `Tables`, `Text` | rows, years, the query layer, string stripping |
| `Courses`, `Recommendations`, `Preparation` | next course, roster, recommendation, sections and destinations |
| `Validation`, `Staleness`, `Execution`, `Accounting`, `Enrollments`, `Redelivery`, `Foresight` | verdicts and preview, fingerprint, the execution loop, what it guarantees, what it does not, and what can be told before it starts |
| `Sessions`, `SessionRow`, `Lifecycle`, `LockProtocol`, `Workspace`, `Gates` | the session row, its invariant, the lock, histories of a branch, when each operation is accepted and what it writes |
| `Rollover`, `UndoTheorem`, `Progression`, `RolloverGate` | rollover, its inverse, what it does to every student, several years, when it is accepted |
| `Timetable`, `Syllabus`, `Templates`, `IdGeneration` | the three smaller algorithms |

Failures outside the model are the parameter `Execution.Faults`, over which every theorem
quantifies: an exception may strike a student after any number of the step's writes, after the
counter or after the log, and the year switch may fail. The same parameter says how the task runs.
A background worker has no transaction around the loop, so its savepoints have no effect, every
write stays, and an exception out of the loop is saved as a failed run. Run eagerly inside the
transaction of the start or resume that triggers it, savepoints work and such an exception undoes
everything. Edits of other tables between two operations are the event `Workspace.Edit`, which may
replace the tables by any others that do not lose years or sections.

## What turned out to be false of the code

Each is stated with the condition under which the property does hold, exact where the row says if
and only if.

* A run's saved counters exceed its logs when a failure after the counter write is followed by a
  success of the same action, because the savepoint rolls the row back and not the object in memory;
  in a worker any such failure does it (`Accounting.RunAccounting`, `Redelivery.DriftExample`).
* In a worker a step that raises is not undone. A move whose section is gone leaves the student
  enrolled without a section (`Redelivery.AllOrNothing`), and an exception between the two enrollment
  writes leaves both rows live (`Enrollments.CutLeavesBoth`).
* In a worker an attempt logged as failed can switch the year (`Redelivery.FailureSwitchesYear`). It
  does so if and only if the year can be switched, no move is logged as a success and some move was
  struck between its counter and its log (`Accounting.StatusFollowsLogs`, `Foresight.StatusForeseen`).
* In a worker an exception after the success log breaks the whole loop (`Accounting.RunLogs`).
* The run status PARTIAL is never assigned (`Accounting.NeverPartial`).
* A finished run delivered again never gets past its first ready decision, and a worker then ends
  FAILED even if the run had succeeded (`Redelivery.DeliveredAgain`, `Redelivery.SecondAttempt`).
* Locking writes back the validation snapshot loaded before its own validation, so a plan that just
  passed can be refused at the start (`LockProtocol.LockThenStart`, `LockProtocol.StaleSnapshotExample`).
* The staleness check looks the stored section up again, so edits of a section never count as drift
  (`Staleness.SectionEditsUnnoticed`). A section on one side only makes it raise, unless it is the
  stored one and its row is gone (`Staleness.RaisesExactly`); no locked session gets there
  (`LockProtocol.LockedNeverRaises`).
* Starting preparation twice fails when a mapping names a course of another branch
  (`Preparation.PrepareTwice`).
* Undo restores a student only if the student's pointers agreed with the enrollment, and always
  leaves the source year unfrozen (`UndoTheorem.UndoRestores`); an undone rollover can never be
  executed again (`UndoTheorem.NoSecondRollover`).
* A student who repeats the last class and sits in a section that is deleted or of another year makes
  the whole rollover raise, because that section has no copy to repeat in. Where the rows refer to
  existing rows, only that, a missing current year and a taken year name stop a rollover
  (`RolloverGate.RolloverAccepted`).
* The fingerprint holds every student's source enrollment and the comparison does not look at it, so
  an enrollment closed after the lock is not drift (`Staleness.FingerprintTells`,
  `Staleness.DriftExact`).
* A promotion does not move the profile's pointer to the new enrollment; the rollover does
  (`Validation.StepCarriesOut`, `Progression.EveryStudentRolled`).
* The rollover graduates a student whose class is no longer offered; the recommendation engine asks
  for a review (`Progression.UnofferedClassGraduates`).
* Deleted timetable entries keep blocking their cell (`Timetable.DeletedCellStaysTaken`); no
  reachable timetable has anything to report as a clash (`Timetable.NeverDoubleBooked`).
* A syllabus form that names a unit twice loses rows (`Syllabus.SyncLosesRepeats`).
* Two students numbered across years can be allocated the same id when one has a year and the other
  has none and the first is no longer active (`IdGeneration.UnalignedCollide`). That the years align
  is sufficient only; for templates with the number after the year the condition is exact
  (`IdGeneration.CollisionsExactly`), and the default format is safe
  (`IdGeneration.DefaultStudentIdsDiffer`).
* A yearly restarting counter whose template has no year token stops allocating at a new year once the
  first hundred ids of an earlier one are in use (`IdGeneration.RestartFailsExactly`).
* An update of the class mappings that needs a class of another branch is undone by its own closing
  listing while some moved student has no section (`Lifecycle.MappingsUpdatedExactly`).

Documentation that disagrees with the code: the counters are called gap-free, but a number whose id
is taken is skipped; the model follows the code.

## Model

| member | source | states |
|---|---|---|
| `Calendar.OneCurrentAlways` | apps/academics/queries/calendar.py:36-89 | over any sequence of creating, setting, freezing, deleting, flipping, rolling over and undoing years at most one year is current |
| `Calendar.StepKeepsOneCurrent` | apps/academics/models/calendar.py:40-46 | every single calendar step keeps the constraint |
| `Calendar.SavesExact` | apps/academics/queries/calendar.py:36-89 | what creating, setting, freezing and deleting a year write to each row; a year is created if and only if no row, deleted ones included, has the name |
| `Calendar.NamesStayApart` | apps/academics/models/calendar.py:40-46 | over any sequence of year operations names stay apart |
| `Calendar.FlipResult` | apps/academics/interactors/year_transition.py:12-15 | after a promotion's flip the target is the sole current year, the source is frozen, the two saved rows have a new version and no other year's frozen, live or name column moved |
| `Calendar.UndoYearsAccepted` | apps/academics/interactors/rollover.py:424-433 | undo's year saves are accepted if and only if no third year is current |
| `Calendar.ReactivatingFirstRefused` | apps/academics/queries/rollover.py:184-204 | in the other order the save is refused, while the order taken is accepted |
| `Records.ActiveEnrollmentIs` | apps/admissions/queries/enrollment.py:45-60 | under the one-live-row constraint the look-up finds exactly that row |
| `Courses.NextFollows` | apps/academics/interactors/rollover.py:86-94 | the next course is d if and only if both are live courses of the department and d is the first of them after the current one in name order |
| `Courses.NextInjective` | apps/academics/interactors/promotion_recommendations.py:39-52 | no two courses lead to the same next course, and the next is always further on |
| `Courses.NextAdvances` | apps/academics/queries/structure.py:214-215 | the next course is one position further, and missing exactly at the last position |
| `Recommendations.RecommendExact` | apps/academics/interactors/promotion_recommendations.py:66-149 | the answer for every row, on the tables: pending without a section or before results are out, review for a class out of sequence, promote or review before the last class by college or school, retain or graduate at it by arrears |
| `Preparation.SeedClassMappings` | apps/academics/interactors/promotion_preparation.py:123-150 | the loops produce the upserted next-course rows of the promoted classes |
| `Preparation.SeededMaps` | apps/academics/interactors/promotion_preparation.py:123-150 | seeding maps every class promoted out of to its next class and leaves every other mapping as it was |
| `Preparation.StoredMaps` | apps/academics/queries/promotion_preparation.py:46-58 | of several rows for one class the last one wins |
| `Preparation.ProvisionTargetBatches` | apps/academics/interactors/promotion_preparation.py:58-120 | creates one section for each distinct unmet need, in order; on a failed insert exactly the needs before it are provided |
| `Preparation.ApplyDestinations` | apps/academics/interactors/promotion_preparation.py:153-203 | rewrites every decision to its destination |
| `Preparation.NeedsDistinct` | apps/academics/interactors/promotion_preparation.py:58-100 | the needs are distinct and are exactly those of some decision |
| `Preparation.SectionsProvided` | apps/academics/interactors/promotion_preparation.py:58-120 | every section added is live, of the year and asked for by some decision, and every decision asking in a class of this branch has its section |
| `Preparation.ProvideAdds` | apps/academics/interactors/promotion_preparation.py:100-120 | provisioning only appends live target-year sections, each for one of the needs |
| `Preparation.ProvideFailsExactly` | apps/academics/interactors/promotion_preparation.py:100-120 | provisioning fails if and only if some need has a deleted or foreign twin and no listed section |
| `Preparation.PlaceFailsExactly` | apps/academics/interactors/promotion_preparation.py:100-120 | provisioning fails if and only if some decision asks for a section that no listed one provides and a deleted or foreign one holds the name of |
| `Preparation.ProvideKeepsUnique` | apps/academics/models/structure.py:83-114 | course, year and section name stay unique |
| `Preparation.DestinationsCorrect` | apps/academics/interactors/promotion_preparation.py:153-203 | a retained student of a class of this branch, and one promoted out of a mapped class, with a section name, ends in the target-year section of that class, or of the mapped one, with the same name; no other column moves |
| `Preparation.DestinedExact` | apps/academics/interactors/promotion_preparation.py:38-45 | the destination of every decision by its action: the section of the same name or else the first by name, of the mapped or own class, and none for those who leave |
| `Preparation.PreparedDestinations` | apps/academics/interactors/promotion_preparation.py:275-295 | starting preparation takes a promoted student to the following class and keeps a retained one in the same class, under the old section name |
| `Preparation.PrepareTwice` | apps/academics/interactors/promotion_preparation.py:275-295 | starting twice equals starting once if and only if every needed course is of this branch; otherwise the second start fails |
| `Preparation.PlaceTwice` | apps/academics/interactors/promotion_preparation.py:58-203 | placing again with the same mappings changes nothing if and only if every needed course is of this branch; otherwise it fails |
| `Validation.ReadyIsSound` | apps/academics/interactors/promotion_validation.py:98-142 | a ready verdict means an active student with a source enrollment and, for moves, a target-year section, a published fee for it and no target enrollment |
| `Validation.VerdictExact` | apps/academics/interactors/promotion_validation.py:55-142 | a decision is ready if and only if no obstacle stands on the tables, and is otherwise blocked for the first of the nine in the order of the checks; a ready move gets the first fee by name for its section and year |
| `Validation.NoneBlocked` | apps/academics/queries/promotion_preparation.py:90-97 | the blocked count is zero exactly when no decision is blocked, and the ready count is the number a run works through |
| `Validation.PreviewMoves` | apps/academics/interactors/promotion_validation.py:145-186 | new enrollments equal promoted plus retained |
| `Validation.PreviewCountsRun` | apps/academics/interactors/promotion_validation.py:145-186 | each preview line counts the actions of the decisions the run will process |
| `Validation.PreviewShortfall` | apps/academics/interactors/promotion_execution.py:526-634 | whatever fails, each preview line equals the succeeded plus the failed logs of that action when the run reaches its end, and otherwise that holds of the decisions it processed |
| `Validation.PreviewIsTheRun` | apps/academics/interactors/promotion_execution.py:526-634 | without outside failures a plan that can be done ends with the preview as its counters and none failed |
| `Validation.StepLeavesOthers` | apps/academics/interactors/promotion_execution.py:374-458 | a student's step changes nothing that was validated for another student |
| `Validation.StepCarriesOut` | apps/academics/interactors/promotion_execution.py:374-458 | after a promote or retain step the source row is closed and otherwise unchanged, a live active target row in the chosen section carries the arrears, and the profile is in that section; after a graduation, transfer or withdrawal row and profile are Graduated, Transferred or Withdrawn, by name, the profile has no section and points at the closed row |
| `Validation.ValidatedPlanIsCarriedOut` | apps/academics/interactors/promotion_execution.py:526-634 | after a clean run that holds of every ready decision, against the tables before the run |
| `Staleness.BuildFingerprint` | apps/academics/interactors/promotion_staleness.py:61-101 | the loops print both years, all mappings, all decisions and each fee once |
| `Staleness.CompareFingerprints` | apps/academics/interactors/promotion_staleness.py:114-151 | the loops give the change list of the comparison, or its exception |
| `Staleness.SilentMeansUnchanged` | apps/academics/interactors/promotion_staleness.py:114-151 | no message if and only if the fingerprint exists, years and mapping sets are equal, every stored decision is live with the same status, class and existing section, and every stored fee is unchanged |
| `Staleness.ReportExact` | apps/academics/interactors/promotion_staleness.py:114-151 | the list of a comparison that does not raise has each change if and only if there is cause for it: a year, the mappings, a decision gone, a status, a class, a section gone or replaced, a fee |
| `Staleness.DriftExact` | apps/academics/interactors/promotion_staleness.py:61-184 | a plan locked on some tables is found unchanged on others if and only if both years' version and flags, every student's status and section and every used fee's version and state agree and every chosen section exists |
| `Staleness.FingerprintTells` | apps/academics/interactors/promotion_staleness.py:61-101 | two fingerprints of one plan are equal if and only if those rows and every student's source enrollment agree |
| `Staleness.RaisesExactly` | apps/academics/interactors/promotion_staleness.py:104-111 | the comparison raises if and only if some stored decision that still exists was locked without a section and has one now, or was locked with a section whose row exists and has none now |
| `Staleness.OneSidedExample` | apps/academics/interactors/promotion_staleness.py:104-111 | a pair that raises, and the pair with the stored section's row gone, which gets a message |
| `Staleness.FreshFingerprint` | apps/academics/interactors/promotion_staleness.py:61-184 | a fingerprint compared with itself is silent if and only if every chosen section's row exists |
| `Staleness.SectionEditsUnnoticed` | apps/academics/interactors/promotion_staleness.py:25-38 | editing or deactivating sections never changes the verdict |
| `Execution.ExecutePromoteRetain` | apps/academics/interactors/promotion_execution.py:374-416 | the writes of a move in the source's order, and exactly those of them that an exception anywhere in it leaves |
| `Execution.ExecuteExit` | apps/academics/interactors/promotion_execution.py:419-458 | the same for graduation, transfer and withdrawal, with or without a source enrollment |
| `Execution.Attempt` | apps/academics/interactors/promotion_execution.py:556-618 | tables, counters and log after the guarded part, raise or not |
| `Execution.ExecuteStudent` | apps/academics/interactors/promotion_execution.py:544-634 | one iteration: inside a transaction a raise is rolled back except in the in-memory counters, elsewhere its writes stay; then the failure log and counter |
| `Execution.RunStudents` | apps/academics/interactors/promotion_execution.py:526-634 | the loop equals the iteration over the ready decisions, stopping at an exception |
| `Execution.ExecuteRun` | apps/academics/interactors/promotion_execution.py:510-744 | loop, reload, year switch and status; an exception out of the loop undoes the task inside a transaction and is saved as failed elsewhere |
| `Accounting.RunLogs` | apps/academics/interactors/promotion_execution.py:526-634 | a fresh run logs each processed decision once, in order, and reaches the end, with one log for every ready decision, if and only if no attempt of a worker succeeds and is then struck after its log |
| `Accounting.LoopBreaks` | apps/academics/interactors/promotion_execution.py:604-634 | the same condition for a loop over any decisions not yet logged |
| `Accounting.RunAccounting` | apps/academics/interactors/promotion_execution.py:556-634 | each saved counter equals its log count, and all add up to the logs, if and only if nothing inflates them: in a transaction no late failure of a counter before a success of it, in a worker no late failure at all |
| `Accounting.EarlyFailuresOnly` | apps/academics/interactors/promotion_execution.py:556-634 | with outside failures only inside the student step every counter is exact, in a transaction or not |
| `Accounting.SavedExact` | apps/academics/interactors/promotion_execution.py:571-630 | a saved counter never falls short, and is exact exactly when nothing inflates it |
| `Accounting.StatusFollowsLogs` | apps/academics/interactors/promotion_execution.py:636-677 | status and year switch of a run that reaches its end follow from the log counts if and only if it runs in a transaction, or the year cannot be switched, or some move is logged as a success, or no move was struck between counter and log |
| `Foresight.OutcomesForeseen` | apps/academics/interactors/promotion_execution.py:526-634 | with one decision per student the outcomes of the loop are those of each decision on the starting tables, up to one that leaves the loop |
| `Foresight.RunForeseen` | apps/academics/interactors/promotion_execution.py:526-634 | by the starting tables: the run reaches its end if and only if no outcome is broken, then logs exactly the foreseen outcomes, and each counter equals its logs if and only if they do not inflate it |
| `Foresight.StatusForeseen` | apps/academics/interactors/promotion_execution.py:636-677 | by the starting tables: status and year switch follow from the logs if and only if the run is in a transaction, or the year cannot be switched, or some move succeeds, or none is struck between counter and log |
| `Foresight.CutLeavesOthers` | apps/academics/interactors/promotion_execution.py:374-458 | wherever a student's step is cut nothing that counts for another student changes |
| `Accounting.NeverPartial` | apps/academics/interactors/promotion_execution.py:636-677 | no task, new or delivered again, ends PARTIAL |
| `Redelivery.AllOrNothing` | apps/academics/interactors/promotion_execution.py:544-634 | an attempt takes the whole step or leaves the tables alone if and only if it runs in a transaction or is not torn, torn being a condition on the tables, the decision and the place of the exception |
| `Redelivery.DriftExample` | apps/academics/interactors/promotion_execution.py:571-630 | in a transaction two graduations are counted and one is logged |
| `Redelivery.FailureSwitchesYear` | apps/academics/interactors/promotion_execution.py:556-660 | in a worker a promotion logged as failed makes the run succeed and switches the year |
| `Redelivery.DeliveredAgain` | apps/academics/interactors/promotion_execution.py:359-371 | a finished run delivered again raises at its first ready decision: inside a transaction everything is undone, in a worker it ends failed with no new log |
| `Redelivery.SecondAttempt` | apps/academics/interactors/promotion_execution.py:544-634 | what the worker's second attempt at that decision writes: a move is carried out exactly when a live source row and no live target row are there, an exit is counted again |
| `Redelivery.LoggedRunCrashes` | apps/academics/queries/promotion_execution.py:81-94 | a loop is left by an exception if and only if it meets a decision logged before or one breaks it |
| `Enrollments.StepFair` | apps/academics/interactors/promotion_execution.py:374-458 | wherever a step is cut rows only close, a target row is opened only where none is live, and it has been paid for with the source row if and only if the cut is not between opening and closing |
| `Enrollments.IterationFair` | apps/academics/interactors/promotion_execution.py:544-634 | the same for a whole iteration: the new row has been paid for if and only if a worker was not struck between opening and closing |
| `Enrollments.OneTargetRow` | apps/academics/interactors/promotion_execution.py:526-634 | over any runs, retries and failures, with savepoints or without, a student gets at most one target-year row, and only while enrolled in the source year |
| `Enrollments.OneTargetRowInterleaved` | apps/academics/interactors/promotion_execution.py:359-371 | in every interleaving of the row writes of any deliveries in progress at once, decided on tables that may be out of date, a student gets at most one target-year row |
| `Enrollments.StepIsWrites` | apps/academics/interactors/promotion_execution.py:374-458 | every step, cut anywhere, makes a beginning of such writes |
| `Enrollments.NeverDoubleEnrolled` | apps/academics/interactors/promotion_execution.py:526-634 | unless a worker is cut between opening and closing, the new row costs the live source row and live rows over both years never increase |
| `Enrollments.CutLeavesBoth` | apps/academics/interactors/promotion_execution.py:390-394 | a worker cut there leaves the student live in both years |
| `SessionRow.PromotionSession.BulkOverride` | apps/academics/interactors/promotion.py:356-461 | the loop over the selection, its skips, and the reported count of log rows |
| `SessionRow.PromotionSession.UpdateClassMappings` | apps/academics/interactors/promotion_preparation.py:326-354 | the upsert loop, provisioning, destinations and the closing listing with its own pass, all or nothing, with the error raised |
| `SessionRow.PromotionSession.UpdateSectionMappings` | apps/academics/interactors/promotion_preparation.py:409-436 | the assignment loop, rolled back at the first invalid section |
| `SessionRow.PromotionSession.LockPreparation` | apps/academics/interactors/promotion_preparation.py:439-493 | validation, fingerprint, token in the snapshot read before, and read-back as one transaction |
| `SessionRow.PromotionSession.Perform` | apps/academics/interactors/promotion.py:291-550 | any of the fourteen operations, done in place, has the effect and the error of its function and keeps the session invariant |
| `Lifecycle.ApplyKeeps` | apps/academics/interactors/promotion.py:463-550 | every operation keeps the session invariant: override replay, draft means untouched, approved means executable actions, locked means all ready and bound to the stored fingerprint and token |
| `Lifecycle.OneOverride` | apps/academics/interactors/promotion.py:317-334 | an override extends the decision's chain, so replay still ends at the final action |
| `Gates.OverrideGate` | apps/academics/interactors/promotion.py:291-334 | an override needs a draft, a reason of ten characters and a decision, and writes the action, the flag and one log row |
| `Lifecycle.ManyOverrides` | apps/academics/interactors/promotion.py:409-431 | the same for a bulk override, which touches final actions and flags only |
| `Lifecycle.OverrideConserves` | apps/academics/queries/promotion.py:172-207 | one decision moves between two action counts, no other count moves, and the total stays |
| `Lifecycle.BulkOverrideExact` | apps/academics/interactors/promotion.py:356-461 | exactly the selected decisions are set, and one entry is logged for each that did not already have it |
| `Gates.BulkGate` | apps/academics/interactors/promotion.py:382-407 | a bulk override needs a draft, a reason, some criterion and somebody who meets all of them |
| `Gates.BulkSets` | apps/academics/interactors/promotion.py:409-431 | it sets exactly the decisions that meet the criteria |
| `Lifecycle.AssignEffect` | apps/academics/interactors/promotion_preparation.py:409-436 | each decision named gets the section last asked for, of this branch and the target year, or none; the others are unchanged |
| `Lifecycle.MappingsUpdatedExactly` | apps/academics/interactors/promotion_preparation.py:326-354 | a stored mapping update goes through, unchanged by the closing listing, if and only if every moved student has a section or every needed class is of this branch; otherwise the listing raises and it is undone |
| `Lifecycle.ApproveKeeps` | apps/academics/queries/promotion.py:69-86 | approval establishes that every final action is executable |
| `Gates.ApproveGate` | apps/academics/interactors/promotion.py:463-484 | approval needs a draft in which every action can be executed, and changes the status only |
| `Lifecycle.ReopenKeeps` | apps/academics/queries/promotion.py:89-139 | a reopened session is as untouched as a draft |
| `Gates.ReopenGate` | apps/academics/queries/promotion.py:89-139 | reopening needs an approved session never executed, and takes back every column preparation wrote |
| `Gates.LockedPlanFixed` | apps/academics/queries/promotion_preparation.py:112-117 | while locked, whatever edits the plan is refused and whatever is accepted leaves decisions and mappings alone |
| `Gates.UnlockGate` | apps/academics/interactors/promotion_preparation.py:496-520 | unlocking needs an unexecuted locked or invalid session and a reason, and drops the fingerprint |
| `Gates.PreparationGate` | apps/academics/interactors/promotion_preparation.py:275-295 | preparation starts if and only if the session is approved and not locked and no asked-for section is held by a hidden one |
| `Gates.StoreGate` | apps/academics/interactors/promotion_preparation.py:326-354 | mappings are stored if and only if the session is approved and not locked, every class they lead to exists and the placement goes through |
| `Gates.ListingGate` | apps/academics/interactors/promotion_preparation.py:298-324 | listing the mappings places once more if and only if the session is not locked and some student to move has no section |
| `Gates.AssignGate` | apps/academics/interactors/promotion_preparation.py:409-436 | sections are assigned if and only if the session is approved and not locked and each one named is open in the target year |
| `Gates.ValidateGate` | apps/academics/interactors/promotion_validation.py:249-365 | validation needs an approved session that is not locked, judges every decision and saves how many are ready, that the others are blocked, and the preview |
| `Gates.LockGate` | apps/academics/interactors/promotion_preparation.py:439-493 | a session can be locked if and only if it is approved and not locked, its years are live, the source current, its switch not made, and no obstacle stands before any of its decisions, of which there is one at least |
| `Gates.StartAccepted` | apps/academics/interactors/promotion_execution.py:159-325 | a session that is not running starts if and only if it is approved and locked, no other session runs, phrase and token are right, nothing watched has drifted, its years are ready, it has not succeeded, nobody is blocked, somebody is ready and every ready move has section, fee and no target row |
| `Gates.StartWhileRunning` | apps/academics/interactors/promotion_execution.py:127-156 | its own running session is returned as it is, another's refuses the start by name |
| `Gates.StartWrites` | apps/academics/interactors/promotion_execution.py:276-325 | an accepted start of a session that already runs changes nothing; any other opens one run with zero counters |
| `Gates.LockStartRun` | apps/academics/interactors/promotion_execution.py:276-744 | from lock to end: started on later tables without drift and with destinations open, and run without outside failures, the saved run counts the preview and logs every decision, everybody is carried out from the later tables and the year is switched exactly when somebody moved or graduated |
| `Lifecycle.LockedRowKeeps` | apps/academics/interactors/promotion_preparation.py:439-493 | an accepted lock has every decision ready with destination and fee, the fingerprint of exactly this plan and its digest as token |
| `Lifecycle.LockWrites` | apps/academics/interactors/promotion_preparation.py:439-493 | a lock changes no action, override, mapping, run or execution status |
| `Lifecycle.PerformedStatus` | apps/academics/interactors/promotion_execution.py:636-744 | a task that is saved ends succeeded or failed and changes no other column of the session but its runs |
| `LockProtocol.StartedForever` | apps/academics/interactors/promotion.py:507-550 | in a started session reopening and unlocking are refused and no operation resets execution or moves an action |
| `LockProtocol.ApprovedKeepsReview` | apps/academics/queries/promotion_preparation.py:112-117 | while approved, students, actions, flags and the override log do not move |
| `LockProtocol.StartBinds` | apps/academics/interactors/promotion_execution.py:286-325 | a new start carries the digest of the locked fingerprint, which is of the very plan executed, and what it holds of both years, every student's status and section and every fee is what their rows hold at the start |
| `LockProtocol.StaleTokenRefused` | apps/academics/interactors/promotion_execution.py:302-310 | a token of another lock is accepted only if both locked the same plan |
| `LockProtocol.LockedNeverRaises` | apps/academics/interactors/promotion_staleness.py:104-111 | in a locked session the comparison does not raise |
| `LockProtocol.FreshLock` | apps/academics/interactors/promotion_preparation.py:439-493 | a lock is not stale on the tables it was made on |
| `LockProtocol.ChecksAfterLock` | apps/academics/interactors/promotion_execution.py:159-221 | right after a lock the checks pass exactly when the session has not succeeded and the pre-lock snapshot counted nobody blocked |
| `LockProtocol.LockThenStart` | apps/academics/interactors/promotion_execution.py:60-84 | the same condition decides whether phrase and token start the execution |
| `LockProtocol.LockThenStartLater` | apps/academics/interactors/promotion_execution.py:159-325 | a session locked on some tables starts on others if and only if no watched row differs, the destinations are still open, it has not succeeded and the pre-lock snapshot counted nobody blocked |
| `LockProtocol.StaleSnapshotExample` | apps/academics/interactors/promotion_preparation.py:443-463 | a concrete session whose lock succeeds and whose start is refused |
| `LockProtocol.ValidateLockStart` | apps/academics/interactors/promotion_preparation.py:439-493 | validating once more before the lock always clears the way |
| `LockProtocol.EagerStartStands` | apps/academics/interactors/promotion_execution.py:276-357 | the task run inside its start's own transaction never raises, so the start stands |
| `Foresight.StartedRunMeetsNoConstraint` | apps/academics/interactors/promotion_execution.py:159-357 | the task of an accepted start, run at once, never meets a constraint of the enrollment or log table |
| `LockProtocol.LockedPlanRunsClean` | apps/academics/interactors/promotion_execution.py:510-744 | locked and run on unchanged tables without outside failures, a session succeeds with its preview as counters and every decision carried out; the target is then the one current year and the source frozen if and only if somebody moved or graduated |
| `Workspace.EveryHistory` | apps/academics/interactors/promotion.py:199-251 | over any history of starts, operations and edits elsewhere: one session per source year, one running session, every session's invariant |
| `Workspace.RunningKeeps` | apps/academics/interactors/promotion_execution.py:103-156 | at most one session of a branch runs, across starts, repeats, resumes and failures |
| `Workspace.NewSessionInvariant` | apps/academics/interactors/promotion.py:79-115 | a new session satisfies the invariant, with recommended actions as final ones |
| `Gates.StartGate` | apps/academics/interactors/promotion.py:199-251 | a promotion starts if and only if both years are live and different, the source has no session and nobody attends twice; the draft has one decision per current student with the class, section and recommendation of the row |
| `Workspace.StartedInEveryHistory` | apps/academics/interactors/promotion.py:507-550 | whatever happens next in a branch, a started session stays started, is never reopened or unlocked, and keeps its override log and actions |
| `Rollover.CopySections` | apps/academics/interactors/rollover.py:193-243 | the loop copies the year's sections and records old to new; on failure exactly the sections before are copied |
| `Rollover.RollInPlace` | apps/academics/interactors/rollover.py:244-318 | one student is moved on, graduated or held back as the step function says; on failure the tables are those at the raise |
| `Rollover.RollRoster` | apps/academics/interactors/rollover.py:244-318 | the loop over the roster, with the movements it records; on failure the students before are done and the next one raised |
| `Rollover.RunRollover` | apps/academics/interactors/rollover.py:193-361 | the transaction: year switch, sections, students, run row; a failure leaves every table as it was |
| `Progression.EveryStudentRolled` | apps/academics/interactors/rollover.py:244-318 | an accepted rollover moves every current student with a following class: old row closed, one new live active row with the arrears in the section of the same name, profile pointing at both; from a last class it graduates or, with arrears, repeats; without a section nothing changes |
| `Progression.NobodyElseRolled` | apps/academics/queries/rollover.py:53-66 | nobody who is not a current student is touched |
| `RolloverGate.RolloverAccepted` | apps/academics/interactors/rollover.py:193-274 | a rollover is accepted if and only if there is a current year, no year, deleted ones included, has the following name, and nobody who would repeat the last class sits in a section that is deleted or of another year |
| `RolloverGate.RolloverRefused` | apps/academics/interactors/rollover.py:193-207 | a rollover is rejected without a current year or when a live year has the following name, and raises at the insert when only a deleted one has it |
| `RolloverGate.CopyAccepted` | apps/academics/interactors/rollover.py:229-242 | the sections of a year can always be copied into a new one |
| `Rollover.UndoInPlace` | apps/academics/interactors/rollover.py:384-423 | the two loops restore placements and then undo the movements; on failure the movements before are undone and the next one raised |
| `Rollover.RunUndo` | apps/academics/interactors/rollover.py:384-438 | the undo transaction within its window, all or nothing |
| `UndoTheorem.UndoRestores` | apps/academics/interactors/rollover.py:384-438 | rollover then undo is accepted and restores every earlier enrollment, closes every new one, restores every year's flags with the source unfrozen, and restores a profile if and only if its pointers agreed with the enrollment |
| `UndoTheorem.UndoRefused` | apps/academics/interactors/rollover.py:385-391 | undo is rejected if and only if the last run is not a success, and denied if and only if its window is over |
| `UndoTheorem.UndoWindow` | apps/academics/queries/rollover.py:131-141 | a rollover can be undone if and only if fewer than 24 hours passed, and only once |
| `UndoTheorem.RollAllMoves` | apps/academics/interactors/rollover.py:244-318 | a rollover touches only the rostered students with a section, at most closes their rows, and only adds sections and target-year rows |
| `UndoTheorem.YearsUndone` | apps/academics/queries/rollover.py:184-204 | every old year has its flags back, the source is unfrozen, the new year is neither current nor live |
| `UndoTheorem.NoSecondRollover` | apps/academics/interactors/rollover.py:193-243 | an undone rollover can never be executed again |
| `Progression.OneRollover` | apps/academics/interactors/rollover.py:244-318 | a student with a class and no arrears goes to the next position with the same section name, the profile pointing at the new row and its section, or graduates from the last and has no section |
| `Progression.GraduatesOnTime` | apps/academics/interactors/rollover.py:86-94 | from position i of n the student is at i + k after k rollovers, the profile with the place, and graduates with exactly the (n - i)-th |
| `Progression.CopiesAreTwins` | apps/academics/interactors/rollover.py:229-242 | exactly the year's sections are copied, each to a live section of the new year with the same class and name |
| `Progression.RolloverFollowsRecommendation` | apps/academics/interactors/promotion_recommendations.py:66-149 | whenever the recommendation is promote, retain or graduate an accepted rollover does that to the student: row, successor, arrears and both pointers of the profile |
| `Progression.UnofferedClassGraduates` | apps/academics/interactors/rollover.py:86-94 | a student of a class no longer offered is left to review by the one engine and graduated by the accepted rollover |
| `Progression.UniqueKept` | apps/academics/interactors/rollover.py:244-318 | the one-live-enrollment constraint survives a rollover |
| `Timetable.ListAllClashes` | apps/academics/interactors/timetable.py:59-79 | the loops with their set of seen keys give the report of the first visit to each key, for any order of the listing |
| `Timetable.DetectExact` | apps/academics/interactors/timetable.py:31-56 | the clashes found are exactly the live active entries of the branch at the time with the person, and with the room |
| `Timetable.ClassExact` | apps/academics/interactors/timetable.py:59-79 | a class of the report is exactly the live active entries of the branch that share person or room at the time |
| `Timetable.ClashReportExact` | apps/academics/interactors/timetable.py:59-79 | each item is a whole faculty or room class less the entry visited, each class of two or more has exactly one item, and the report is empty if and only if nothing collides |
| `Timetable.NeverDoubleBooked` | apps/academics/interactors/timetable.py:82-105 | over any sequence of creates, updates, deletes, subject removals, year closings and staffing changes no class, person or room is double-booked, and the clash report stays empty |
| `Timetable.CreateAccepted` | apps/academics/interactors/timetable.py:160-193 | a row is added, as it is, if and only if year, subject, slot, person and room are fit, the class slot is free and no stored row, live or deleted, collides; a refusal names the first hurdle and, for a clash, exactly the busy rows |
| `Timetable.UpdateAccepted` | apps/academics/interactors/timetable.py:196-223 | an update replaces the row by the one with the fields sent, field by field, if and only if year, version and any person or room sent are fit, the class slot is free of others and no other stored row collides |
| `Timetable.DeleteAccepted` | apps/academics/interactors/timetable.py:226-231 | a delete needs an open year and takes the row out of service as a new version |
| `Timetable.DeletedCellStaysTaken` | apps/academics/models/timetable.py:167-189 | after a delete every create that conflicted with the entry is still refused |
| `Timetable.MassWrites` | apps/academics/queries/timetable.py:299-330 | what removing a subject, closing a year and a new teacher write to each row |
| `Timetable.StaffingAccepted` | apps/academics/queries/timetable.py:307-330 | a class subject can be given a teacher if and only if no two of its cells are at one time and the teacher has no other active cell then |
| `Timetable.Grid.PropagateFaculty` | apps/academics/queries/timetable.py:307-330 | the loop sets every cell or none, and succeeds exactly when the finished table meets the constraints |
| `Syllabus.SyncListsForm` | apps/academics/queries/syllabus.py:104-130 | with no unit named twice the ordered units are the non-blank titles numbered from 1, with their old ids where given |
| `Syllabus.CleanedExact` | apps/academics/queries/syllabus.py:104-112 | the cleaned rows are, in order and with their ids, the rows whose title is not blank, trimmed |
| `Syllabus.ListingExact` | apps/academics/queries/syllabus.py:38-41 | the listing has exactly the live units of branch and subject, by order and then by age |
| `Text.StripTrims` | apps/academics/queries/syllabus.py:104-112 | stripping takes off exactly the blanks at both ends |
| `Syllabus.SyncLosesRepeats` | apps/academics/queries/syllabus.py:104-130 | with a unit named twice fewer units than rows remain |
| `Syllabus.SyncFrame` | apps/academics/queries/syllabus.py:92-130 | units not in use for the subject are unchanged, and a progress row of one in use survives if and only if a row of the form with a title names its unit |
| `Syllabus.SyncKeepsProgressLive` | apps/academics/queries/syllabus.py:92-102 | progress still refers only to active units of its branch |
| `Syllabus.DeleteKeepsProgressLive` | apps/academics/queries/syllabus.py:92-102 | deleting a unit takes out exactly it and its progress |
| `Syllabus.CompletionExact` | apps/academics/queries/syllabus.py:184-222 | the completed units become exactly requested and active, as rows of the branch; other sections and subjects are untouched |
| `Syllabus.PercentBounds` | apps/academics/queries/syllabus.py:12-16 | the percentage is in 0..100, is 100 when complete, and is 100 with units missing only from 200 units per missing one |
| `Syllabus.HundredShows` | apps/academics/queries/syllabus.py:12-16 | that bound is sharp |
| `Syllabus.PercentMonotone` | apps/academics/queries/syllabus.py:12-16 | completing more never lowers the percentage |
| `Syllabus.OrderedUnique` | apps/academics/queries/syllabus.py:38-41 | the order of the listing determines it |
| `Syllabus.Register.SyncUnitsForSubject` | apps/academics/queries/syllabus.py:104-130 | the update, create and delete loops and the listing they return |
| `Syllabus.Register.SetClassCompletion` | apps/academics/queries/syllabus.py:194-222 | clears, then writes one row for each completed unit |
| `IdGeneration.DoorsAgree` | apps/accounts/id_generation.py:39-56 | a label that starts with a four-digit year means that year's row |
| `IdGeneration.CanonicalStable` | apps/accounts/id_generation.py:39-56 | a canonical key is its own canonical key |
| `IdGeneration.KeyReads` | apps/accounts/id_generation.py:39-56 | the canonical key is the year, a dash and the next; a label without a year stands for itself |
| `Templates.SequenceTextInjective` | apps/accounts/id_generation.py:59-68 | zero-filled numbers are told apart |
| `Templates.SequentialIsSimultaneous` | apps/accounts/id_generation.py:59-68 | replacing the five tokens one after the other fills all slots of a template at once, as long as no text or value has an opening brace |
| `Templates.SequenceTextIs` | apps/accounts/id_generation.py:59-68 | the number's text has its value, and is filled with zeros to the width exactly when shorter |
| `Templates.ReplaceInjective` | apps/accounts/id_generation.py:59-68 | what replaces a token that occurs can be told from the result |
| `Templates.AlikeInjective` | apps/accounts/id_generation.py:59-68 | the same across two templates that differ only in digits |
| `Templates.SeqSurvives` | apps/accounts/id_generation.py:59-68 | filling in another token never destroys the sequence token |
| `IdGeneration.CandidateReads` | apps/accounts/id_generation.py:39-68 | an id reads as its format with the branch code, the four digits of the year and their last two, FAC or STU, and the number in place of the tokens |
| `IdGeneration.RenderTells` | apps/accounts/id_generation.py:59-68 | two numbers render differently if and only if the filled-in template has the sequence token |
| `IdGeneration.RenderTellsAcross` | apps/accounts/id_generation.py:59-68 | an id gives its number back across two years whose digits align in the template |
| `IdGeneration.HandedOnce` | apps/accounts/id_generation.py:71-82 | in every interleaving a counter hands out strictly increasing numbers |
| `IdGeneration.CounterShared` | apps/accounts/id_generation.py:71-101 | two requests draw on one counter if and only if branch and role agree and, for students numbered by the year, the canonical year |
| `IdGeneration.AllocationsDiffer` | apps/accounts/id_generation.py:71-130 | a sufficient condition: two allocations of one counter and scheme differ in every interleaving, whatever their years and doors, when both years have digits, neither has, or the template shows no year |
| `IdGeneration.YearlyAllocationsDiffer` | apps/accounts/id_generation.py:85-130 | for a counter that restarts each year that condition always holds |
| `IdGeneration.SeparatedTells` | apps/accounts/id_generation.py:59-68 | a separator between year and number makes an id give its number back, whether or not the years align |
| `IdGeneration.DefaultStudentIdsDiffer` | apps/accounts/id_generation.py:30-33 | under the default student format two allocations of one counter always differ |
| `IdGeneration.CollisionsExactly` | apps/accounts/id_generation.py:59-68 | under a template with the number after the year, an id of a year is also that of some number without a year if and only if the text between the two repeats the year's digits and the digits after it do not begin with a zero |
| `IdGeneration.AllocatedIsFree` | apps/accounts/id_generation.py:104-130 | an id that is looked up and allocated belongs to no active user |
| `IdGeneration.FirstFree` | apps/accounts/id_generation.py:104-130 | the id handed out is that of the first number not in use, or of the next where ids are not looked up |
| `IdGeneration.UnalignedCollide` | apps/accounts/id_generation.py:104-130 | students numbered across years under {YEAR}{SEQ}: number 1 of 2025 and, once its holder is no longer active, a later number in a branch without a current year are allocated the same id |
| `IdGeneration.CounterTable.GenerateUserId` | apps/accounts/id_generation.py:104-130 | returns the id of the first free number among the next hundred, or fails when all are taken; no other counter moves |
| `IdGeneration.FewTakenSucceeds` | apps/accounts/id_generation.py:104-130 | with fewer than a hundred ids taken an allocation succeeds |
| `IdGeneration.FailsExactly` | apps/accounts/id_generation.py:104-130 | an allocation fails if and only if ids are looked up and the next hundred are all taken, and then uses up a hundred numbers |
| `IdGeneration.RestartFailsExactly` | apps/accounts/id_generation.py:85-130 | without a year token in the template the first allocation of a new year fails if and only if the first hundred ids of an earlier year are all in use |

## Left out

- Object mapping, serializers, views, routing, permissions, admin pages and migrations: no state of their own.
- Task dispatch, clocks, progress estimates, the current student's name, updated-by columns, audit and preparation logs: no guarantee depends on them. Hours and validation times are parameters.
- The public entry points of rollover and undo refuse every request (apps/academics/interactors/rollover.py:32-34); modelled are the transactions behind them, without the stale-preview and running-promotion checks made before.
- Notifications, exports, dry-run payloads, sample rows, blocked-by-reason tables and outstanding-fee warnings: output only.
- Fee set-up and exam results: whether they fail, and which results are unpublished, are parameters; the arrear subjects of an enrollment are a table.
- Promotion reason texts enter by the length of the stripped text, and the confirmation phrase by whether it matched.
- Creating the target year inside the start of a promotion: it is the calendar's create, made by an edit before the start.
- Timetable entries, timetables and the periods that a rollover or flip copies or closes: undo does not restore them. The closing of entries is the timetable's own year operation.
- Names are ranks in collation order, so case-insensitive comparison and locale collation are not modelled; students are processed in row order.
- SHA-256 is an injective constructor.
- Hard deletes of years, sections and students: rows are soft-deleted only.
- The check in syllabus reconciliation that a unit belongs to the subject: the units it applies to are already filtered by subject.
- White space and digits are those of ASCII; branch codes arrive in upper case.
- Creating, editing and deleting rooms, period slots and single syllabus units, publishing a timetable: easy members.
- Requests that interleave with each other or with a background run: every transaction is one step, and so is every delivery of a run, except that `Enrollments.OneTargetRowInterleaved` interleaves row writes.
- LockProtocol.EagerStartStands: takes a savepoint inside a transaction to be restored whatever raised, although the database may refuse that after an error of its own; the run itself meets no such error (`Foresight.StartedRunMeetsNoConstraint`).
- Syllabus.PercentBounds: does not fix how a tie is rounded, because the source divides in floating point; it holds for either way.
