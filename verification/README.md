# Verified model of pg_laswell's core

pg_laswell applies signed migrations to a live PostgreSQL. This project models the parts of it
whose promises range over every table, every crash point and every interleaving, and proves those
promises with Dafny 4.11. `dafny verify dfyconfig.toml` checks all of it.

| part | modules | what is proved |
|---|---|---|
| the paced walk | `Order`, `Walk`, `WalkLaws`, `Settling`, `Preimage`, `WalkWitnesses`, `Batches`, `Grouped`, `Backfill`, `Scripts`, `Deletes`, `DeleteWitnesses`, `Source`, `SourceRuns` | a table is a finite map from key to row; batches, commits, cancels, crashes, other sessions' writes and resumes are the events of a machine with a committed and an open-transaction state. Cursor and data agree over every run; a finished job changed every matching row above its start once and no other; resumed walks complete; pre-images restore the table; deletes over repeated keys and walks over a source are brought under the same laws; a good cursor is accepted and a bad one is not; the executor's loops, with their budgets and early commits, stay on legal runs of the machine, are paced as the outside asks, and end |
| uniqueness proofs | `Uniqueness` | an index the planner accepts really makes the key name one row, NULLs included, and the planner accepts every index that qualifies |
| transaction groups | `StepRunner`, `Executors`, `ExecutorWitnesses`, `WalkSteps` | at every end of a job, exactly when "succeeded" and what the server kept agree, in both directions, for steps in groups and for steps with transactions of their own; a transaction's steps are kept all or none; a walk's part of this is read off its table; retries are bounded |
| advisory-lock protocol | `Ledger`, `LedgerWitnesses` | mutual exclusion, exactness of the finished and of the dead-job reading and safety of reconciliation over every interleaving of processes, crashes and restarts; nobody waits for a lock |
| repository order and runner | `Ordering`, `Subsets`, `Repository`, `Deployments` | levels are the least solution of the dependencies and as low as they can be; a reported cycle is one; exactly when concurrent groups are independent; every deployment starts a specification at most once, after its dependencies, within the cap, and returns with nothing in flight and the outcome its first bad look calls for |
| breaker and gate | `Breaker`, `Gates`, `Workers` | the counters stand for the reading history; flips are at least a dwell apart; the gate's count is the number of held slots through every move; whoever waits at the gate holds nothing, so no cycle of waits passes through it |
| canonical form | `Utf`, `Tokens`, `Canonical`, `Printer` | the loops print the canonical form, members in the order of RFC 8785; a reader recovers the printed value; two values print the same bytes exactly when they are equal, where nothing wraps |

Reading notes.

- **Where the code does not keep a promise.** (1) When the tool cancels its own batch, the
  transaction is rolled back but the local cursor is not moved back: `CancelExact` and
  `CompleteExactly` say that the walk is complete if and only if each such cancel hit the first
  batch of its transaction, and `CancelMidTransactionLosesRows` is a run where it is not. (2) A
  single-key walk starts just after the sentinel "0", so it covers the keys above that:
  `WholeTableExactly`. (3) Where a matching
  row, once changed, still matches, its cursor is false and the next job changes it again:
  `CursorsHoldExactly` and `NeverRepeatsExactly` say that this condition is exact, and
  `UnsettledChangeIsRepeated` is such a run. (4) Concurrent groups compare a candidate on another database with the
  group's first member only: `SafeExactly` gives the exact condition, `TwoOnOneDatabase` three
  entries outside it. (5) Unsigned integers of 2^63 and more wrap: `RecoveredExactly`,
  `WrapsToMinusOne`. (6) A commit of a group whose reply is lost leaves the
  record wrong if the server applied it. A walk or a concurrent build that does not end well keeps
  what it had committed while reading "failed" or "cancelled". And one that reads "succeeded" need
  not be whole: a walk may have lost rows to a cancel in mid-transaction, and a concurrent build may
  return and leave an invalid index. `Executors.Executor.Run` gives the three exact conditions;
  `LeavesPartOf` and `SucceedsHollow` run a job for every answer that leads there, `FourWays` and
  `TwoHollow` list some, and `LosingWalkSucceeds` is the walk of (1) with its record. (7) A delete saves its rows by key and removes them by key and predicate:
  putting the saved rows back restores the table if and only if no row sharing a taken key failed
  the predicate (`DeleteRoundTripExactly`, `AlwaysRestoresExactly`, `SharedKeyIsSavedWhole`); replacing by key always does
  (`DeleteReplaceRoundTrip`). (8) A dead job is missed where a session with its pid holds its lock
  and the reader cannot see when that session began: `DeadExactly`, `DeadIsMissed`.
- **Where code and comment differ.** The comment above `OperationGate` (cpp/src/jobs.h:179-186)
  says a job can wait at the gate with a transaction open. At all four places where a
  slot is asked for (cpp/src/executor.h:605, 929, 1160, 1243) neither a slot nor a transaction is
  held: `Executors.Executor.Run` and `Backfill.Job.RunBackfill` promise this of everything they do,
  and `NeverThroughTheGate` draws the conclusion. The comment in
  `validate_executor` says that without resume below pause the breaker flaps on the next tick; the
  two counters read disjoint conditions, so `FlipsApart` needs only a positive dwell.
- **The outside** (the observer's flags, statement results, lost connections, signals, job ends,
  file reads, the clock) is a parameter: a function from "the n-th time it is looked at" to what is
  seen. What a contract says was met or seen is one of the looks that were taken, and a walk or a
  deployment that ends says which look ended it. Termination is proved where the
  outside calms down: finitely many cancels for a walk (and, by group, finitely many new groups),
  every job ending for a deployment.
- A key is the list of its columns' values, each an integer standing for its place in the column's
  order. An SQL statement is the set or list of rows it names.

## Model

| member | source | states |
|---|---|---|
| `Walk.RunAccounted` | cpp/src/executor.h:1231-1407 | over every run of batch, commit, cancel, crash and resume, each row that matched when the job began and lies behind its cursor is in exactly one place (committed, in the open transaction, or passed over by a cancelled one), the count of rows is their number, and no other row was touched |
| `WalkLaws.FinishedJob` | cpp/src/executor.h:148-321 | a finished job changed each row above its start that matched, exactly once, and no other row, whatever the batch sizes and budgets; only its own cancels' rows are excepted |
| `WalkLaws.FinishedAmongOthers` | cpp/src/executor.h:1231-1407 | with other sessions writing meanwhile, a job walked to its end changed each row at most once, counted it once, passed over none and left no matching row above the start |
| `WalkLaws.RunTakenOnce` | cpp/src/executor.h:1300-1336 | over every run, other sessions' writes included, a job takes no row twice |
| `WalkLaws.WhatRemains` | cpp/src/executor.h:1307-1326 | above the start exactly the rows passed over by cancels still match; below it nothing changed |
| `WalkLaws.WholeTableExactly` | cpp/src/executor.h:1664-1664 | a finished job leaves no matching row in the table if and only if nothing was passed over and nothing at or below the walk's start matched |
| `WalkLaws.CancelExact` | cpp/src/executor.h:1307-1336 | after the tool's own cancel the cursor is still true of the data if and only if the cancelled batch was the first of its transaction |
| `WalkLaws.LostExactly` | cpp/src/executor.h:1307-1336 | over every run of one job nothing is passed over if and only if every cancel hit a transaction's first batch |
| `WalkLaws.CompleteExactly` | cpp/src/executor.h:1231-1407 | a job walked to its last commit leaves no matching row above its start if and only if every cancel hit a transaction's first batch |
| `WalkLaws.CursorAndDataAgree` | cpp/src/executor.h:1378-1397 | over every run of batches, commits, crashes, resumes, other sessions' writes and first-batch cancels, no row above the start and at or below the committed cursor still matches |
| `WalkLaws.ResumeClaim` | cpp/src/executor.h:1550-1665 | a cursor that passes the staleness check is resumed with nothing matching at or below it; a rejected or absent one restarts from the beginning |
| `WalkLaws.BeginsAt` | cpp/src/executor.h:1600-1665 | a job offered a cursor begins at it if no matching row lies at or below it, and at the walk's start if one does or if none is offered |
| `WalkLaws.CommittedCursorAccepted` | cpp/src/executor.h:1600-1665 | over every run with first-batch cancels, from a table with no matching row at or below the start and a change that settles, the next job accepts the committed cursor and goes on from it |
| `WalkLaws.NeverPastBound` | cpp/src/executor.h:1111-1134 | a job resumed under an upper bound takes no row above it, over every run |
| `WalkLaws.ResumedJobFinishes` | cpp/src/executor.h:1613-1665 | from any state and any offered cursor, walking to the end leaves no matching row at all (cursor accepted) or none above the start (restart), with others writing meanwhile and rows above the bound not escaping |
| `WalkLaws.Progress` | cpp/src/executor.h:1111-1134 | a batch leaves exactly the rows it did not take, and a job may finish exactly when none is left under its bound |
| `WalkWitnesses.CancelMidTransactionLosesRows` | cpp/src/executor.h:1307-1336 | a legal run that finishes with a committed cursor past a row never written |
| `Settling.CursorsHoldExactly` | cpp/src/executor.h:1378-1397 | the committed cursor is true of the data over every table and every run with gentle cancels if and only if a matching row, once changed, no longer matches |
| `Settling.NeverRepeatsExactly` | cpp/src/executor.h:1613-1665 | no row is changed and saved twice over every undisturbed run, restarts included, if and only if a matching row, once changed, no longer matches |
| `Settling.SecondJobRuns` | cpp/src/executor.h:1550-1665 | for any change that does not settle on some row, a legal run in which the committed cursor is rejected and the row is changed and saved a second time |
| `WalkWitnesses.UnsettledChangeIsRepeated` | cpp/src/executor.h:1550-1665 | a legal run of two jobs that counts one row up twice and saves it twice |
| `Preimage.RoundTripForward` | cpp/src/planner_dml.h:936-957 | for any change of rows a unique key names, across crashes, cancels and resumes that go on from the committed cursor, writing the saved columns back by key restores the first table exactly |
| `Preimage.RoundTrip` | cpp/src/planner_dml.h:1125-1155 | for a change after which a matching row no longer matches, the same through restarts as well |
| `Preimage.RunKept` | cpp/src/planner_dml.h:532-625 | the side table holds each changed row once, with its columns as they were, at every point of every run |
| `Preimage.SavedColumns` | cpp/src/planner_dml.h:578-606 | what is saved of a row is, of the columns the change may assign (or of all, where the row is removed), exactly those it had, with the values it had in the first table |
| `Deletes.RunSeen` | cpp/src/planner_dml.h:2130-2173 | a delete walk over a table whose key may repeat, with other sessions writing, is by key a legal run of the walk machine |
| `Deletes.FinishedDelete` | cpp/src/planner_dml.h:2152-2173 | a finished delete removed every matching line above its start, however keys repeat, and no other |
| `Deletes.DeleteCursorAgrees` | cpp/src/executor.h:1378-1397 | no line above the start and at or below the committed cursor still matches |
| `Deletes.RunDeleteBatch` | cpp/src/executor.h:148-209 | a batch cut by rows and bytes is a whole stretch even where the cut falls between lines of one key, since removal is by value; it takes as many of the next keys as the limit and the bytes allow |
| `Deletes.RunLinesKept` | cpp/src/planner_dml.h:608-625 | the side table of a delete holds every line that shared a taken key, as it was, over every run |
| `Deletes.DeleteRoundTripExactly` | cpp/src/planner_dml.h:2163-2173 | putting the saved lines back restores the table at every point of every run if and only if no line sharing a taken key fails the predicate |
| `Deletes.AlwaysRestoresExactly` | cpp/src/planner_dml.h:2163-2173 | putting the saved lines back restores the table after every run from it if and only if no line above the start shares its key with a matching line and fails the predicate |
| `Deletes.DeleteReplaceRoundTrip` | cpp/src/planner_dml.h:608-625 | replacing the lines of each saved key by the saved ones always restores it |
| `DeleteWitnesses.SharedKeyIsSavedWhole` | cpp/src/planner_dml.h:2163-2173 | two lines under one key, one deleted: both are saved, and putting both back leaves one twice |
| `Batches.CutByBytes` | cpp/src/executor.h:178-205 | the byte budget takes the longest prefix that fits and never no key of a non-empty selection |
| `Batches.RunPacedBatch` | cpp/src/executor.h:148-221 | a batch takes exactly the matching rows between the old cursor and the new one, none only when none is left, and as many as its limits allow: it falls short of the row limit only where nothing more is left or the next key would exceed the bytes |
| `Batches.RunCompositeBatch` | cpp/src/executor.h:234-321 | the same over row comparison, row limit and bytes included; refused exactly where the cursor has the wrong number of columns |
| `Batches.PrefixIsCut` | cpp/src/planner_dml.h:974-1020 | a non-empty prefix of the ordered selection is every matching row up to its last key |
| `Batches.CutIsPrefix` | cpp/src/planner_dml.h:1072-1157 | every cut, in order, is a prefix of the flat walk's selection |
| `Grouped.RunGroupedBatch` | cpp/src/executor.h:344-446 | a grouped batch is a cut of the flat (group, key) order inside one group, as full as the limit and the bytes allow; it reports the end only when nothing is left; it gives up for want of work exactly when it has left 64 groups behind; under locks it stays in its group and asks for a commit exactly where that group has no more work |
| `Grouped.GroupedRefinesFlat` | cpp/src/planner_dml.h:1165-1234 | what a grouped batch takes is the next rows of the flat walk in the flat walk's order |
| `Grouped.EnterIsEmptyCut` | cpp/src/executor.h:362-392 | entering the next group passes over no matching row |
| `Grouped.NoGroupLeft` | cpp/src/executor.h:362-392 | no later group and no work in this one means the walk is over |
| `Grouped.PairOrder` | cpp/src/executor.h:109-146 | a group cursor stands for one place in the flat order, a bare group before all of its own keys |
| `Backfill.RunBatch` | cpp/src/executor.h:1286-1306 | whichever shape runs, the batch obeys one law: a cut, and a full one |
| `Backfill.TurnFacts` | cpp/src/executor.h:1286-1361 | a batch takes away exactly its rows from what is left, a skip enters a group, and an empty batch that is neither is the end |
| `Backfill.Job.Turn` | cpp/src/executor.h:1243-1361 | one batch in the open transaction keeps the object on a legal run and reports what it brought nearer |
| `Backfill.Job.CommitBatch` | cpp/src/executor.h:1378-1397 | cursor, data and pre-images are committed together, and what is left is unchanged |
| `Backfill.Job.RollBack` | cpp/src/executor.h:1307-1336 | the tool's cancel drops the transaction and keeps cursor and count |
| `Backfill.Job.TryCommit` | cpp/src/executor.h:1378-1397 | a commit is acknowledged, or its reply is lost and the session gone, with the server having applied it or not, as the outside says of the look before it |
| `Backfill.Job.RunTransaction` | cpp/src/executor.h:1248-1397 | one transaction ends committed, rolled back or with its session, and unless cancels are still to come it took a row, entered a group or finished |
| `Backfill.Job.LocksBounded` | cpp/src/executor.h:1354-1374 | whatever the outside does, at every moment of a paced walk the open transaction holds at most the cap less one and one batch of changed rows |
| `Backfill.Job.RunBackfill` | cpp/src/executor.h:1231-1407 | for every outside and every politely writing other session the walk stays on a legal run, waits for a slot with nothing held, and leaves transactions that count what it changed and what its cancels passed over. It is paced as the outside asks: the n-th look is the n-th batch, full for its limit (half while throttled); a batch is rolled back exactly where the outside cancelled it; a transaction is committed exactly after an empty batch, a request or the cap, and none begins after a stop. It ends in one of the source's ways, for what its last look saw, once cancels and, by group, new groups cease |
| `Backfill.LeftShrinks` | cpp/src/executor.h:1111-1134 | other sessions' writes never add to what a walk has still to take |
| `Source.BatchLaw` | cpp/src/planner_dml.h:1485-1521 | a batch is empty only when the source is exhausted, and exceeds its limit only by rows sharing its last key |
| `Source.BatchFull` | cpp/src/planner_dml.h:1485-1521 | a batch falls short of its limit only where it takes every row that is left |
| `Source.WalkSource` | cpp/src/executor.h:156-161 | the batches partition the source rows above the start, however keys repeat and whatever the limits |
| `SourceRuns.RunKept` | cpp/src/executor.h:1613-1665 | over every run of batches, commits, cancels, crashes and unchecked resumes, a source row behind the committed cursor was considered by exactly one committed batch or passed over, and no other was |
| `SourceRuns.PassedExactly` | cpp/src/executor.h:1307-1336 | source rows are passed over if and only if a cancel that undid batches was followed by a commit before a crash |
| `SourceRuns.FinishedRun` | cpp/src/planner_dml.h:1485-1521 | a walk at its end considered each source row above its start in exactly one committed batch if and only if no cancel that undid batches was followed by a commit before a crash |
| `SourceRuns.CancelMidTransactionPassesRows` | cpp/src/executor.h:1307-1336 | a run that ends with its cursor past a source row no committed batch considered |
| `Uniqueness.UniqueKeyIndex` | cpp/src/planner_dml.h:448-499 | found exactly where an index proves the key, and then names the first that does; otherwise names the first that leads with the key |
| `Uniqueness.KeySound` | cpp/src/planner_dml.h:448-499 | an accepted single key matches at most one row |
| `Uniqueness.LeadingAloneExactly` | cpp/src/planner_dml.h:448-499 | a complete unique index that leads with a key makes it unique in every table if and only if it is the only key column |
| `Uniqueness.UniqueGroupKeyIndex` | cpp/src/planner_dml.h:355-381 | found exactly where an index proves the key within a group, with the required group if one is, and then the first that does |
| `Uniqueness.GroupKeySound` | cpp/src/planner_dml.h:355-381 | an accepted (group, key) names at most one row |
| `Uniqueness.UniqueIndexContaining` | cpp/src/planner_dml.h:402-446 | found exactly where an index serves, and the one chosen is primary before others, then narrowest, then first |
| `Uniqueness.CompositeSound` | cpp/src/planner_dml.h:402-446 | accepted columns are never NULL, differ between rows and order any two rows one way |
| `Uniqueness.RowKeyIsUnique` | cpp/src/planner_dml.h:1364-1399 | proved exactly where an index within the key's columns qualifies, and then names the first that does |
| `Uniqueness.RowKeySound` | cpp/src/planner_dml.h:1364-1399 | an accepted key equality matches at most one row |
| `StepRunner.AttemptsExactly` | cpp/src/executor.h:615-682 | an attempt may be begun if and only if it is the first or the pauses slept before leave patience |
| `StepRunner.AttemptsBounded` | cpp/src/executor.h:667-670 | that is at most one attempt for each second of patience and a few for the short pauses at first |
| `StepRunner.MarkAgrees` | cpp/src/executor.h:755-776 | marking a rolled-back group makes record and ledger agree with what stays |
| `StepRunner.ForgetAgrees` | cpp/src/executor.h:731-753 | forgetting a group's steps keeps each ordinal once and agreement with what was kept |
| `StepRunner.RecordAgrees` | cpp/src/ledger.h:436-460 | recording a step not recorded before keeps each ordinal once and extends agreement by it |
| `StepRunner.GroupsAgreeExactly` | cpp/src/executor.h:567-613 | of the steps run in groups those told to be kept are those that are, if and only if no applied commit of a group lost its reply |
| `StepRunner.PartIsLeftExactly` | cpp/src/executor.h:904-963 | a step with transactions of its own has kept effects without having been seen through if and only if the answer it was given leaves part of it |
| `StepRunner.GoodIsWholeExactly` | cpp/src/executor.h:965-971 | what was seen through is whole if and only if no row of it was undone and no statement left something unusable |
| `StepRunner.OwnWholeExactly` | cpp/src/executor.h:1307-1336 | every own-transaction step told to be kept is kept whole if and only if none that was seen through is hollow |
| `StepRunner.SeenThroughExactly` | cpp/src/ledger.h:436-460 | an own-transaction step is told to be kept if and only if it was seen through |
| `StepRunner.ToldIsKept` | cpp/src/ledger.h:436-460 | whatever was told to be kept was committed with its group or was seen through |
| `StepRunner.KeptTogether` | cpp/src/executor.h:567-613 | two steps of one transaction group with no step between them that ends its transaction are kept together or not at all, by one and the same commit |
| `Executors.Executor.OperationSlot` | cpp/src/executor.h:710-724 | a group's slot is asked for with no slot held and no transaction open |
| `Executors.Executor.CommitGroup` | cpp/src/executor.h:567-613 | an acknowledged commit moves the group to what is kept; a lost reply is an exception whatever the server did |
| `Executors.Executor.RunNontransactional` | cpp/src/executor.h:904-963 | a slot around each statement up to the first that did not return; the step succeeds, and is so recorded, exactly where every statement returned |
| `Executors.Executor.RunWalk` | cpp/src/executor.h:1021-1490 | a slot around each transaction, the one statement ahead of the walk included; the step is recorded succeeded exactly at the walk's end with its checks holding, failed where they did not hold or a batch failed, and the job is stopped exactly where the walk was told to |
| `Executors.Executor.RetryGroup` | cpp/src/executor.h:626-682 | a lock that does not come rolls the group back; the job is stopped only if told to, given up only with its patience spent, and otherwise the group is forgotten and begun again after the pause its attempt calls for |
| `Executors.Executor.SkipStep` | cpp/src/executor.h:558-564 | a step whose effect is already there is recorded as skipped for that reason; one that is not to be applied leaves no trace |
| `Executors.Executor.Execute` | cpp/src/executor.h:518-708 | the loop over steps ends, keeps the record in agreement at every exit, has every commit be of one whole transaction, on success kept every step, and otherwise was given a bad answer or a plan with a check inside a group's open transaction |
| `Executors.Executor.Run` | cpp/src/executor.h:452-516 | at any terminal state each ordinal is recorded once and none is running. A group step that reads "succeeded" is kept, and the converse holds if and only if no applied commit lost its reply. An own-transaction step reads "succeeded" if and only if it was seen through; all that do are whole if and only if none is hollow; one has kept effects without reading so if and only if its answer leaves part of it. A job that did not succeed was given a bad answer, or a plan with a check inside a group's open transaction. Attempts are bounded, and no slot was waited for with anything held. Of steps in one transaction of one group either all are kept or none, and every commit is of exactly one such transaction. Nothing is run without a look between it and the step before that did not say stop; a job ends cancelled only where one did and failed only where the last look did not; on success the steps to be skipped are recorded so |
| `ExecutorWitnesses.LeavesPartOf` | cpp/src/executor.h:1443-1488 | for every own-transaction step and every answer that leaves part of it, the job runs, the effects are kept and the record does not say so, with no group's commit lost |
| `ExecutorWitnesses.FourWays` | cpp/src/executor.h:921-931 | a failed check after the last batch, a failed batch after a committed one, a second statement that fails, and an applied statement whose end is not told are such answers |
| `ExecutorWitnesses.SucceedsHollow` | cpp/src/executor.h:1490-1490 | for every own-transaction step and every good answer that is hollow, the job runs, the record says it succeeded and it is not whole |
| `ExecutorWitnesses.TwoHollow` | cpp/src/executor.h:965-971 | a batch rolled back with the cancelled one, and a build that returns and leaves an invalid index, are such answers |
| `WalkSteps.AnswerTells` | cpp/src/executor.h:1021-1490 | what a walk tells its step has effects exactly where rows were changed and is whole exactly where it ended with nothing passed over |
| `WalkSteps.RunWalkStep` | cpp/src/executor.h:578-586 | a walk and the step that runs it: the step reads "succeeded" exactly where the walk ended and its checks held, and, alone on the table with a change that settles, is whole if and only if no matching row above the start is left, if and only if every cancel hit a transaction's first batch |
| `WalkSteps.LosingWalkSucceeds` | cpp/src/executor.h:1307-1336 | the walk that loses a row in mid-transaction, with a record that says it succeeded |
| `Ledger.StepInv` | cpp/src/ledger.h:375-405 | every event keeps the protocol's invariant: who holds which lock, whose row is whose, which sessions share a pid |
| `Ledger.MutualExclusion` | cpp/src/ledger.h:375-405 | over every interleaving two open jobs with live sessions share no specification or target key |
| `Ledger.ReconciliationSafe` | cpp/src/ledger.h:550-580 | no job whose session is alive and has not begun to release its locks is ever marked, however much happens between reading and marking |
| `Ledger.DeadExactly` | cpp/src/ledger.h:521-535 | an unfinished job reads as dead exactly when its own session no longer holds its lock and no session with its pid whose start the reader cannot see is taken for it |
| `Ledger.FinishedExactly` | cpp/src/ledger.h:482-486 | over every run a job's row is finished if and only if its close was written or it was marked interrupted |
| `Ledger.EndedForGood` | cpp/src/ledger.h:521-535 | once either has happened, the row is finished at every later point, and the job is never again read as dead nor marked |
| `Ledger.CloseEnds` | cpp/src/ledger.h:482-486 | a written close is such an end |
| `Ledger.MarkEnds` | cpp/src/ledger.h:550-580 | and so is a mark, so no job is marked twice |
| `Ledger.RowsStay` | cpp/src/ledger.h:482-486 | no event changes a row otherwise |
| `Ledger.NeverWaits` | cpp/src/tools.h:1008-1039 | a live process can always take its next step in the protocol, whatever advisory locks it or another holds, and it brings it nearer its end |
| `Ledger.OpenJobAlone` | cpp/src/ledger.h:375-405 | opening a job ends holding every key with the row inserted, or stops at the first held key with nothing written |
| `LedgerWitnesses.TwoOpen` | cpp/src/ledger.h:375-405 | a legal run with two jobs open at once |
| `LedgerWitnesses.DeadIsMarked` | cpp/src/ledger.h:550-580 | a legal run in which a dead job is marked although a session with its pid holds its lock |
| `LedgerWitnesses.DeadIsMissed` | cpp/src/ledger.h:521-530 | a legal run after which a dead job is missed for want of a start time |
| `LedgerWitnesses.OneKeyTwice` | cpp/src/ledger.h:500-509 | a job whose own two keys are one takes the lock twice and holds it until the second release |
| `Ordering.Scan` | cpp/src/repository.h:1087-1113 | one pass finds exactly the ready ones, in their order, and exactly the stuck dependencies of the others |
| `Ordering.CycleExists` | cpp/src/repository.h:1118-1128 | if each of finitely many depends on one of them, some of them form a cycle |
| `Ordering.LayeredGrows` | cpp/src/repository.h:1130-1136 | adding the ready ones as a level keeps every dependency strictly lower and every level as low as possible |
| `Ordering.LeastGrows` | cpp/src/repository.h:1130-1136 | what is placed stays inside every closed set |
| `Ordering.Layers` | cpp/src/repository.h:1082-1137 | the loop ends with the least closed set placed, levels tight, strictly ordered and each in the order of the listing; complete, blocked on exactly the stuck dependencies of what was not placed, or, where there is none, with a real cycle among exactly the remaining ones |
| `Repository.Index` | cpp/src/repository.h:1044-1054 | the index holds each listed id once, the runnable list exactly the pending and failed, in the order of the listing |
| `Repository.Missing` | cpp/src/repository.h:1071-1080 | a dependency is reported exactly where neither repository nor any ledger answers for it |
| `Repository.Assemble` | cpp/src/repository.h:1040-1137 | levels and groups of the whole listing; the problem list begins with what the scan found and holds besides exactly the modified, the missing dependencies, each specification with each stuck dependency of it, and the cycle where one is what remains; it is empty if and only if there is none of these; a reported cycle is real |
| `Subsets.ParallelSubsets` | cpp/src/repository.h:1185-1268 | the nested loops over the taken marks compute the greedy grouping |
| `Subsets.GroupsPartition` | cpp/src/repository.h:1185-1268 | the groups hold the level's specifications, each exactly once |
| `Subsets.SeedLaw` | cpp/src/repository.h:1185-1268 | in every group all are independent of the first, and two on its database of each other |
| `Subsets.Greedy` | cpp/src/repository.h:1185-1268 | whatever is in a later group was kept out of every earlier one for a reason: not provably on another database, and incomplete evidence or a relation shared with the first member or with one not provably on another database |
| `Subsets.GroupsFollow` | cpp/src/repository.h:1185-1268 | each group lists its members in the order of the level |
| `Subsets.SafeExactly` | cpp/src/repository.h:1220-1224 | members of every group are pairwise independent in every order of the level if and only if whatever is on another database than x is independent of everything x is independent of |
| `Subsets.HarmoniousSuffices` | cpp/src/repository.h:1185-1268 | under that condition every group is pairwise independent |
| `Subsets.OneDatabase` | cpp/src/repository.h:397-403 | with no two entries provably on different databases, members touch disjoint relations and a group of more than one has complete evidence |
| `Subsets.TwoOnOneDatabase` | cpp/src/repository.h:1220-1224 | three entries, two on one database and one table, placed in one group |
| `Deployments.Deployment.Drain` | cpp/src/deploy.h:557-578 | everything in flight is watched until it was seen to end, the signal looked at first, nothing is started, and the outcome stays what it was |
| `Deployments.Deployment.RunGroup` | cpp/src/deploy.h:434-550 | every way out leaves nothing in flight and a log each entry of which was seen when it was written; the outcome is what the first look that said not to go on calls for, and success if none did; success means every member ended well, or, in a dry run, that a plan of every member was made and accepted |
| `Deployments.Deployment.Run` | cpp/src/deploy.h:170-281 | every run leaves a sound log with nothing in flight, each entry seen at its own moment and in order, and every acceptance and end that was seen; problems start nothing, a dry run starts nothing; without problems the outcome is what the first look that said not to go on calls for (a signal, an unreadable file, a refused plan or start, a failed job); success means every runnable specification succeeded or, in a dry run, was planned and the plan accepted; nothing is read, planned or started after such a look |
| `Deployments.VerdictIs` | cpp/src/deploy.h:434-550 | a run goes on exactly while every look said so, and otherwise its outcome is that of the first that did not |
| `Deployments.RefusedPlan` | cpp/src/deploy.h:466-479 | a plan seen refused makes the outcome a refusal |
| `Deployments.StartFits` | cpp/src/deploy.h:449-500 | a job is started right after its file was read, and that right after a look at the signal, which had not come |
| `Deployments.Deployment.Launch` | cpp/src/deploy.h:448-517 | starts what there is room for, all of it unless a signal has come or something refuses |
| `Deployments.AtEveryMoment` | cpp/src/deploy.h:434-550 | at every moment of a sound run the jobs in flight are within the cap and members of one group |
| `Deployments.StartedOnce` | cpp/src/deploy.h:434-550 | no specification is started twice |
| `Deployments.IsPrepared` | cpp/src/deploy.h:268-281 | when its turn comes every dependency of a specification is recorded applied or has succeeded earlier in the run |
| `Deployments.TogetherMeansIndependent` | cpp/src/deploy.h:264-281 | with every level harmonious, jobs in flight together are independent |
| `Breaker.PausedNext` | cpp/src/jobs.h:655-706 | one reading changes paused exactly by ending a busy or a calm dwell-run |
| `Breaker.ThrottledNext` | cpp/src/jobs.h:645-706 | one reading's effect on throttled, clear readings keeping it until a calm dwell-run |
| `Breaker.FlipsApart` | cpp/src/jobs.h:655-706 | any two flips are at least dwell readings apart |
| `Breaker.BusyRunExactly` | cpp/src/jobs.h:696-705 | the contention counter reaches d exactly when the last d readings were busy |
| `Breaker.CalmRunExactly` | cpp/src/jobs.h:655-671 | the quiet counter reaches d exactly when the last d readings were calm |
| `Breaker.Thresholds` | cpp/src/config.h:405-441 | in a validated configuration busy and calm are the two thresholds |
| `Breaker.PacingState.Tick` | cpp/src/jobs.h:632-713 | counters and flags stand for the readings: paused exactly when the latest busy dwell-run is more recent than the latest calm one |
| `Gates.Moved` | cpp/src/jobs.h:221-226 | a move changes no gate's count |
| `Gates.Granted` | cpp/src/jobs.h:248-259 | a new slot adds one to its gate's count and to no other's |
| `Gates.Returned` | cpp/src/jobs.h:232-240 | a release takes one from its gate's count and from no other's |
| `Gates.TryAcquire` | cpp/src/jobs.h:248-259 | a slot is granted exactly where a ceiling is set and there is room; counts equal held slots and stay under the highest limit ever set |
| `Gates.Release` | cpp/src/jobs.h:231-240 | gives back once, keeping every gate balanced |
| `Gates.MoveAssign` | cpp/src/jobs.h:222-225 | releases what was held, takes over the other's, and does nothing on itself, keeping every gate balanced |
| `Gates.MoveFrom` | cpp/src/jobs.h:221-221 | what was held changes hands, keeping every gate balanced |
| `Gates.Configure` | cpp/src/jobs.h:191-197 | a new limit interrupts nothing and keeps every gate balanced |
| `Workers.WaiterHoldsNothing` | cpp/src/executor.h:710-724 | whoever waits at the gate holds no slot and has no transaction open |
| `Workers.WriterWasAdmitted` | cpp/src/executor.h:710-724 | whatever is written, in a transaction or outside one, was preceded by a visit to the gate with nothing of it dropped since |
| `Workers.GateInNoCycle` | cpp/src/jobs.h:179-186 | whatever the row locks, no cycle of waits passes through a worker waiting at the gate |
| `Workers.CyclesAreTheServers` | cpp/src/jobs.h:179-186 | every wait in such a cycle is for a lock, which the server sees |
| `Workers.NeverThroughTheGate` | cpp/src/jobs.h:179-186 | the same at every moment of every interleaving of disciplined runs |
| `Workers.Process.TryGet` | cpp/src/executor.h:714-723 | one round at the gate with real slots: held, none because there is no ceiling or the job was cancelled, or another round because the gate is full |
| `Workers.Process.GiveBack` | cpp/src/jobs.h:231-240 | a dropped slot is given back, keeping counts and workers in step |
| `Workers.Process.Safe` | cpp/src/jobs.h:187-273 | over any interleaving of several workers at one gate, the count is the number of held slots and a waiting worker holds neither slot nor transaction |
| `Utf.Utf8Next` | cpp/src/canonical.h:41-79 | reads the code point at the front, or refuses, as the decoder's table says |
| `Utf.HeadEncode` | cpp/src/canonical.h:41-79 | the decoder reads back the RFC 3629 encoding of every scalar value |
| `Utf.DecodeEncode` | cpp/src/canonical.h:41-79 | and of every text |
| `Utf.Utf16Units` | cpp/src/canonical.h:85-99 | the loop yields the UTF-16 code units of the decoded text |
| `Utf.AllUnitsInjective` | cpp/src/canonical.h:85-99 | different texts have different code units |
| `Utf.NameLessTotal` | cpp/src/canonical.h:101-103 | on well-formed names the comparison is irreflexive, asymmetric and total |
| `Utf.NameLessTransitive` | cpp/src/canonical.h:101-103 | and transitive |
| `Utf.NameLessIs` | cpp/src/canonical.h:101-103 | of two names, the one comes first whose UTF-16 code units are a proper prefix of the other's or are smaller where they first differ |
| `Utf.UnitsAre` | cpp/src/canonical.h:85-99 | the code units of a scalar are itself below 0x10000 and its surrogate pair above |
| `Utf.OverlongTies` | cpp/src/canonical.h:101-103 | an overlong encoding ties with the plain one |
| `Tokens.EscapeIsBytewise` | cpp/src/canonical.h:117-143 | on well-formed text every escaped byte is a code point of its own |
| `Tokens.ReadEscaped` | cpp/src/canonical.h:117-143 | the escaped form of any bytes is read back as those bytes |
| `Tokens.ReadDecimal` | cpp/src/canonical.h:161-177 | a printed integer is read back, in front of anything but a digit |
| `Tokens.EscapesAre` | cpp/src/canonical.h:117-143 | the seven short escapes, the long ones and what is not escaped, byte for byte |
| `Canonical.UnsignedExactly` | cpp/src/canonical.h:163-176 | which unsigned integers are printed, and which of them unchanged |
| `Canonical.SafeExactly` | cpp/src/canonical.h:145-177 | a signed integer is printed exactly where it is within 9007199254740991 of zero |
| `Canonical.OneOrder` | cpp/src/canonical.h:191-197 | sorting gives one list, whatever order the names come in |
| `Canonical.ReadBack` | cpp/src/canonical.h:145-212 | every printed value with well-formed text is read back as the printer saw it |
| `Canonical.MembersAppearInOrder` | cpp/src/canonical.h:191-197 | the members of a printed object appear each once, in ascending order of the UTF-16 code units of their names |
| `Canonical.AnObject` | cpp/src/canonical.h:191-212 | an object of two members, printed to the byte |
| `Canonical.RecoveredExactly` | cpp/src/canonical.h:145-212 | the reader gets back an equal value if and only if no unsigned integer is 2^63 or more |
| `Canonical.SameBytesExactly` | cpp/src/canonical.h:219-223 | two printed values have the same bytes if and only if they are equal, where nothing wraps |
| `Canonical.WrapsToMinusOne` | cpp/src/canonical.h:163-165 | 2^64 - 1 is printed as -1 |
| `Canonical.OverlongCollides` | cpp/src/canonical.h:117-143 | an overlong quotation mark prints as the plain one |
| `Printer.EscapeInto` | cpp/src/canonical.h:117-143 | the loop prints the escaped string, or refuses where it does not decode |
| `Printer.AcceptedExactly` | cpp/src/canonical.h:145-212 | a value is printed exactly where it holds no float or binary, only integers in the safe range once cast, and only decodable strings |
| `Printer.Sort` | cpp/src/canonical.h:193-196 | names in any order end sorted, and in the one order there is where no two compare as equal |
| `Printer.Canonicalize` | cpp/src/canonical.h:145-212 | the recursive printer gives bytes exactly where the value is acceptable, and they are the canonical form wherever no two names of an object compare as equal |

## Left out

- Rows whose key is NULL: no statement of a walk selects them, and the table map does not hold them.
- Group and key texts that are empty: the group cursor reads them as "not started"; the model's are integers.
- The text form of a stored cursor: a cursor that cannot be read is modelled for the composite walk only.
- Assignments to key columns, which move a row in the order.
- Deletes.RunDeleteBatch: the batch of a single-key delete; a delete confined to one group at a time is covered by the machine over lines and not by a batch of its own.
- The grouped backfill's pre-images, which save no group column.
- Backfill.Job.RunBackfill: the time-based and waiter-based commit triggers are one flag of the outside; a walk whose batches are cancelled for ever is not followed.
- SourceRuns.FinishedRun: a resume whose ledger cannot be read, which starts over.
- Executors.Executor.Run: writes to the ledger are taken to succeed; an aborted-by-contention end is a failed one; a verify step without a named index is not modelled.
- Ledger.NeverWaits: waits of the row insert on ordinary locks of the ledger's tables, and the hash that makes lock keys, are not modelled.
- Ledger reads and writes outside the job's row, its steps and its locks.
- Gates.TryAcquire: the timed wait is modelled at the moment it ends; fairness among waiters is not.
- Breaker.PacingState.Tick: the counters are unbounded integers; merging a cluster's reading into the local one, and the index-build telemetry, are not modelled.
- Repository.Assemble: how the scan of the files finds its problems, and message texts.
- Deployments.Deployment.Run: the status-only and chain-rehearsal modes, progress lines and notes.
- Printer.Canonicalize: which of two names that compare as equal comes first (possible only with ill-formed text), since the sort leaves it open.
- One-statement steps (`paced: false`) beyond their slot and transaction, and COPY: no loop of their own.
- Catalog and observation SQL, the planner's refusals, rehearsal, after-failure reports, connection handling, configuration parsing, signatures and hashing, and the command-line front ends.
