# efmesh: a model of its planner, executor, state store, janitor, lock and compactor

efmesh plans, builds and serves versioned tables. This project models the parts of it whose
correctness spans several functions or several processes and proves what they keep.
Names, columns, SQL texts and sources are integers, times are integer milliseconds, a
fingerprint is the tree an injective hash would hash, and a query is an AST with a row-wise
meaning. Everything is self-contained; `dafny verify dfyconfig.toml` checks all of it.

## What is proved

**From project to plan.** `Graph` has Kahn's algorithm on mutable counters and queue, equal
to a specification over sets, and shows that it succeeds exactly on acyclic input, in an
order that does not depend on the input's. `Fingerprints` shows that changing one model's
payload moves exactly the fingerprints of that model and its transitive dependents, and that
the canonicalization cache does not show. `Planner` is the planning loop; `PlanFacts` says
what its verdicts mean and `Verdicts` says each one in terms of the stored and the new query.
`Reuse` is the meaning-preservation theorem by induction over the
DAG: physics a plan inherits is what a rebuild would produce, model by model;
`ReuseExactness` shows that its condition is exact over every body and all data behind the
same verdicts, and `ReuseApply` carries it over a whole apply.

**From plan to physics.** `Intervals` shows that merged ranges, batches and marks tile the
planned intervals. `Executor` is an apply's effect on the store, `ApplyFacts` what that leaves
recorded and when the promotion succeeds, `Fixpoint` when planning
again afterwards finds nothing but the lookback tail. `Backfills` works on rows: any batch
size, order, interleaving and failure followed by a resume leaves the table of one
whole-range recompute. `Ledgers` follows whole histories of applies, failures, inheritance,
stale plans, restates and janitor passes: every moment marked done was loaded, by a version
sharing that physics, as long as each step meets a condition on the store alone, and that
condition is exact. `Scd2`, `UniqueKeys` and `Restates` cover the accumulating kinds and
restating. `Scheduler` is the gate scheduler: no deadlock, what a failure stops, and exactly
when every concurrent schedule leaves the sequential result; `Schedules` takes its job from a
plan.

**Shared state.** `Store` is the state store as a class whose methods are tied to
transactions on values; `History` derives the time-to-live guarantee from orphan marks over
every history. `Janitors` interleaves claim, survivor read and drop with builds, records and
promotions. `Lock` is the timed lease protocol, `Leases` one holder's fence against the
store. `Compaction` interleaves a compactor, its crashes and a writer. `SqlTexts` parses and
prints raw SQL.

## Where the code does not meet the plain statement

Each entry names a lemma with a concrete input, and the one that says exactly when the
statement does hold.

- A model is planned non-breaking from its AST alone. If its parent broke in the same plan,
  its kind changed, or its kind keeps history, a grandchild still reuses stale physics
  (`ReuseGap.UnguardedReuseIsStale`, one plan for each; `ReuseExactness.ReuseExact`).
- Gates are awaited for direct dependencies only. A reader behind an idle view runs beside
  the table under the view (`Scheduler.IdleViewRaces`, `Scheduler.ConfluenceExact`; with one
  slot, as on DuckDB, it never does), and finishes although that table's build fails
  (`Scheduler.IdleViewPassesFailure`, `Scheduler.FailedAncestorExact`).
- Inherited done marks are written before the snapshot. A failure in between leaves marks
  that a later regular plan takes for its own (`LedgerGap.LateFailureLosesRows`), and a version
  with a snapshot of its own inherits marks for physics it does not share
  (`LedgerGap.OwnPhysicsInheritsMarks`); `Ledgers.CarefulExact` is the condition.
- The fingerprint payload omits the model's name while the ledger is keyed by fingerprint, so
  one of two equal models marks the other's intervals done (`LedgerGap.NamesakeTakesMarks`,
  `Ledgers.NamesApartExact`) and a claim of one deletes the other's ledger
  (`LedgerGap.ClaimSparesExact`).
- A time-range version with a snapshot of its own, another version's ledger to inherit and
  nothing left to backfill sits the apply out, so the inherited rows are never marked and the
  next plan is not settled (`FixpointGap.IdleInheritorUnsettles`, `Fixpoint.PlanApplyFixpoint`).
- Ledger coverage is compared by interval start alone. A forward-only flag does not require
  the grain to stay, and one done hour hides the day it begins
  (`GrainGap.HoursHideTheDay`, `GrainGap.GrainChangeExact`).
- No record between the janitor's survivor read and its drop is not enough: a build before
  the read, recorded after the drop, loses its table too
  (`Janitors.BuildAcrossWindowLosesPhysics`, `Janitors.DropExact`). Survivors are asked for,
  and drops remembered, by physical fingerprint without the name, so a table no row names any
  more stays behind beside a namesake (`Janitors.SharedPhysicsStaysBehind`,
  `Janitors.RunJanitor`).
- Two missed heartbeats are survived only if the ttl is not a multiple of three; the default
  is one (`Lock.DefaultTtlThirdBeat`, `Lock.HeartbeatKeepsLock`). The comment in
  `src/plan/lock.ts:21-25` says two beats can be missed. With a ttl of zero two processes hold
  one lock (`Lock.ZeroTtlShares`, `Lock.SeedDelayExact`).
- Compaction without a unique key doubles rows if it dies after the rename and runs again
  (`Compaction.UnkeyedCrashDoubles`, `Compaction.CrashPointExact`).
- Printing a parsed text may change its meaning, because white space can keep a token from
  forming (`SqlTexts.SqueezingIsNotStable`, `SqlTexts.ParseOfPrintExact`).

For these the exact condition is the lemma named, and its proof gives the failing input.

- Restating an hour does not reach the day of a daily descendant
  (`Restates.OverlapReachedExactly`).
- A NULL unique key is inserted again by every refresh (`UniqueKeys.RerunExact`); a backfill
  body that does not filter by its bounds is, too (`Backfills.RerunExact`).
- As-of reconstruction of versioned rows needs a clock that does not go back
  (`Scd2.ReconstructionExact`).
- A published name not ending in `.parquet` makes the partition vanish
  (`Compaction.PublishedNameExact`); an order with ties for first place lets a merge drop a
  row readers were shown (`Compaction.OrderExact`).

## Model

| member | source | states |
|---|---|---|
| Intervals.UnitLengths | src/core/interval.ts:18-21 | an hour is 3600 seconds of a thousand milliseconds, a day 24 hours |
| Intervals.WantedMembers | src/core/interval.ts:28-46 | what is wanted is exactly the whole grain intervals that reach past the start and have already ended |
| Intervals.EnumerateIntervals | src/core/interval.ts:33-46 | the loop lists exactly the wanted intervals |
| Intervals.Missing | src/core/interval.ts:48-55 | an interval is missing iff it is wanted and no covered one has its start; order is kept |
| Intervals.MergeIntervals | src/core/interval.ts:57-69 | the loop merges touching neighbours as the specification does |
| Intervals.MergeOntoTiles | src/core/interval.ts:57-69 | merged ranges are whole, separated by real gaps, and cut back into grains give the input |
| Intervals.SplitIntoBatches | src/core/interval.ts:71-89 | a batch size below one is refused; otherwise the range is chopped by that many grains |
| Intervals.BatchesFull | src/core/interval.ts:75-89 | the batches of a range follow one another from end to end, all but the last exactly the batch size of grains long |
| Intervals.IntervalsWithin | src/core/interval.ts:91-99 | the intervals marked for a batch are its grain pieces |
| Intervals.BatchesTile | src/core/interval.ts:75-99 | the grain pieces of the batches of a range are the grain pieces of the range, each once and in order |
| Intervals.Tiling | src/core/interval.ts:57-99 | flattening marks over batches over merged ranges returns the planned intervals; ranges are maximal and batches within size |
| Intervals.TailMembers | src/plan/planner.ts:431-434 | a done interval is looked back on iff fewer than lookback done ones start after it |
| Intervals.ToRecomputeGrains | src/plan/planner.ts:428-436 | a plan recomputes exactly the wanted intervals not done and the done ones with fewer than lookback done ones after them, in order, each once |
| Intervals.BackfillTiles | src/plan/planner.ts:413-437 | for any batch size the intervals an apply marks are exactly those: missing ones, and done ones with fewer than lookback done after them |
| Graph.KahnExact | src/core/graph.ts:37-59 | the drained order is complete iff the graph is acyclic, holds each name once, and has every dependency earlier |
| Graph.CompleteMeansAcyclic | src/core/graph.ts:37-54 | a complete order rules out every cycle |
| Graph.StuckMeansCycle | src/core/graph.ts:56-59 | names left over contain a real cycle |
| Graph.OrderIgnoresInputOrder | src/core/graph.ts:40-49 | two listings of the same models give the same order |
| Graph.Release | src/core/graph.ts:49-53 | decrementing a finished name's children in sorted order queues exactly those whose last dependency it was |
| Graph.Kahn | src/core/graph.ts:37-54 | counters and queue compute the specified order |
| Graph.CollectModels | src/core/graph.ts:18-24 | duplicate names are refused, naming one that occurs twice; otherwise every model is collected |
| Graph.UnknownDep | src/core/graph.ts:26-35 | a dependency outside the project is found iff there is one |
| Graph.CycleNames | src/core/graph.ts:57-57 | the reported names are exactly those left out of the order |
| Graph.BuildGraph | src/core/graph.ts:16-62 | succeeds exactly with unique names, known dependencies and no cycle; the errors say which failed |
| Graph.TransitiveDependents | src/core/graph.ts:64-77 | the worklist terminates with exactly the names reachable along dependents |
| Query.NonBreakingIsSuffix | src/plan/categorize.ts:29-42 | non-breaking iff the new select list properly extends the old one and nothing else changed |
| Query.SelectStable | src/plan/planner.ts:376-381 | a row-wise query over relations widened by further columns returns what it returned |
| Query.SelectWidened | src/plan/categorize.ts:1-7 | with a suffix on its select list it returns the same rows with further columns |
| Fingerprints.SignatureExact | src/plan/fingerprint.ts:203-205 | two parent signatures agree iff every dependency's fingerprint does |
| Fingerprints.FpUnfold | src/plan/fingerprint.ts:196-207 | a model's fingerprint is its own payload over its parents' fingerprints |
| Fingerprints.PayloadExact | src/plan/fingerprint.ts:154-170 | two models have one payload iff canonical body, grain, columns, families and target agree and their kinds differ at most in start, batch size and lookback |
| Fingerprints.FingerprintExactness | src/plan/fingerprint.ts:154-209 | editing one model moves fingerprints iff the edit is to one of those fields or its dependencies, and then exactly its own and its transitive dependents' |
| Fingerprints.NamesShareFingerprints | src/plan/fingerprint.ts:160-170 | two names share a fingerprint iff they are defined alike over the same dependencies; Ledgers.NamesApartExact has the consequence |
| Fingerprints.FingerprintGraph | src/plan/fingerprint.ts:175-209 | the loop with a sound cache returns what the uncached definition does, and leaves the cache sound |
| Fingerprints.Canonicalize | src/plan/fingerprint.ts:185-194 | a hit or a miss returns the canonical form; entries already cached stay |
| Planner.CheckOptions | src/plan/planner.ts:204-228 | the options pass iff the environment's name is well formed, flagged models exist and are time-range and reclassified ones exist; each error names one that fails |
| Planner.EnvNameExact | src/plan/naming.ts:16-18 | an environment's name is a lower-case letter, then letters, digits and underscores |
| Planner.DecideModel | src/plan/planner.ts:243-405 | the branching over override, parents-only, cascade and reuse reaches the specified verdict |
| Planner.PlanChanges | src/plan/planner.ts:203-467 | the loop plans every model by the rules over the verdicts before it, and then the removals; it has changes iff some action is not unchanged, has backfill or refreshes |
| Planner.RemovalsExact | src/plan/planner.ts:453-466 | one removal, building nothing, for each environment row whose model is gone and for no other |
| PlanFacts.PlanLocal | src/plan/planner.ts:243-453 | each action follows from the whole plan's verdicts on its parents, not from the moment it was made |
| PlanFacts.VerdictsByFingerprint | src/plan/planner.ts:252-253 | unchanged iff the environment has this very fingerprint, added iff it has none |
| PlanFacts.ParentsOnlyExact | src/plan/planner.ts:335-346 | shifted by parents only iff the project the environment serves defined the model alike, over the same dependencies |
| PlanFacts.ShiftedHasChangedParent | src/plan/planner.ts:335-346 | a version shifted by parents only has a parent that is not unchanged |
| PlanFacts.ForwardOnlyNeedsFlag | src/plan/planner.ts:347-375 | every forward-only verdict descends from a model the operator flagged |
| Verdicts.VerdictExact | src/plan/planner.ts:243-405 | every model's verdict and reuse from the stored query, the new one, the operator's options and the parents' verdicts |
| Verdicts.RefusedExact | src/plan/planner.ts:262-330 | a moved model is refused iff its row is of a newer algorithm or calling the edit non-breaking contradicts the queries |
| Verdicts.DecidedText | src/plan/planner.ts:302-334 | an override changes the verdict on an edited text alone, and what it replaced is kept |
| Verdicts.ActionTells | src/plan/planner.ts:441-456 | an action carries its model's verdict, what an override replaced, and the version inherited from iff it goes forward-only or reuses |
| Verdicts.ForwardOnlyIsTimeRange | src/plan/planner.ts:208-223 | with valid options only time-range models go forward-only |
| Reuse.SameBodySameContent | src/plan/planner.ts:376-381 | same body and metadata over steady parents evaluate to the same relation |
| Reuse.SuffixBodyWidens | src/plan/categorize.ts:1-7 | a select suffix over steady parents evaluates to the same rows with further columns |
| Reuse.ReuseSound | src/plan/planner.ts:338-404 | a model that stays evaluates to what the environment's version does, or extends it if non-breaking; only the model and its ancestors have to be in the fragment |
| ReuseExactness.ReuseExact | src/plan/planner.ts:302-404 | that holds for every body and all data behind the same verdicts iff the model stays, a condition on verdicts and kinds of it and its ancestors |
| ReuseExactness.CounterVariant | src/plan/planner.ts:302-404 | otherwise there are bodies and data with the same plan whose old columns move |
| ReuseApply.PlannedPhysicsTruthful | src/plan/planner.ts:363-409 | the physics a plan assigns, inherited or own, holds what a rebuild would produce, for each model that inherits nothing or stays |
| ReuseApply.ApplyKeepsTruth | src/plan/executor.ts:578-582 | after a whole apply and its promotion a row is truthful, if it was or its model is vouched for |
| ReuseApply.ApplyKeepsStoreTruthful | src/plan/executor.ts:578-582 | with every model vouched for, the whole store stays truthful |
| ReuseGap.UnguardedReuseIsStale | src/plan/planner.ts:302-404 | three plans, a parent that broke, a kind that changed, a kind that keeps history: an indirect reuse keeps data a rebuild would not produce |
| Executor.SplitBackfill | src/plan/executor.ts:328-331 | the batches are the planned ranges in order, cut into pieces of the batch size in grains |
| Executor.RunTimeRange | src/plan/executor.ts:772-848 | when nothing fails: inherit, record, then mark batch after batch, on the store |
| Executor.ApplyPlan | src/plan/executor.ts:578-582 | when no build fails, the store is every working action's effect in order, then one promotion; says when that promotion fails |
| ApplyFacts.RowsAfter | src/plan/executor.ts:578-848 | after the actions a version has a row iff it had one or a working action recorded it; a new row is the action's, an old one is renewed, no other moves |
| ApplyFacts.PlannedRow | src/plan/executor.ts:592-837 | over a plan, a new row has the model's fingerprint, its canonical query, its kind and its own or its inherited physics |
| ApplyFacts.PromotableExact | src/plan/executor.ts:964-973 | the promotion of a completed apply succeeds iff every idle non-external model had its row before |
| ApplyFacts.WorksExact | src/plan/executor.ts:578-582 | an action runs iff its model is not external and there is a version to build, time to compute or a kind that is always refreshed |
| ApplyFacts.PlannedBatches | src/plan/executor.ts:328-331 | the batches an apply runs for a version of its own are those the backfill results are about |
| Backfills.ReplacedCopies | src/plan/executor.ts:344-347 | after a batch a row occurs as often as before, or not at all inside the range, plus as often as the body yields it |
| Backfills.RerunExact | src/plan/executor.ts:344-347 | running a batch again changes no table iff the body's rows lie in the batch's range |
| Backfills.SameCoverSameTable | src/plan/executor.ts:318-362 | what a backfill leaves depends only on the time covered |
| Backfills.OrderIrrelevant | src/plan/executor.ts:359-362 | any order of the batches leaves the same rows |
| Backfills.BatchSizeIrrelevant | src/plan/executor.ts:328-331 | any batch size leaves the rows of whole-range recomputes |
| Backfills.AdditivityExact | src/plan/executor.ts:328-347 | every cut of every range is invisible iff the body is additive |
| Backfills.HonestRun | src/plan/executor.ts:333-357 | through every interleaving of loads, marks and failures a done interval's rows are the query's |
| Backfills.PlannedOnGrid | src/plan/planner.ts:416-436 | planned batches lie on the model's grid inside the time it covers |
| Backfills.ResumeIsRecompute | src/plan/executor.ts:294-300 | after any runs failed at any point, the next completed plan leaves one recompute of the whole range and touches nothing else |
| Backfills.RunBatch | src/plan/executor.ts:318-357 | one batch loads and is marked done, or leaves its intervals marked failed unless it is the mark itself that fails |
| Backfills.BackfillIntoTable | src/plan/executor.ts:301-363 | the batch loop performs exactly the steps of its outcomes on table and store; at the first failure it stops, marks that batch failed and leaves the rest |
| Backfills.FailedRunResumes | src/plan/executor.ts:294-300 | a planned run failing at any batch, followed by a plan from what it left, gives the whole recompute |
| Backfills.FailedNotDone | src/plan/executor.ts:340-356 | a batch that fails to load or its audit leaves none of its intervals done and no other changed |
| Backfills.FailedIsReplanned | src/plan/executor.ts:340-356 | so the next plan computes all its time again |
| Ledgers.PrepareExact | src/plan/executor.ts:781-837 | inheriting and recording is harmless over every table the ledger was sound over iff what it brings is covered, in the store, over all physics recorded under the fingerprint |
| Ledgers.BreakExact | src/plan/executor.ts:781-828 | failing between inheritance and record is harmless iff the same holds and a record owns whatever is marked |
| Ledgers.BatchExact | src/plan/executor.ts:333-357 | a batch, of a stale plan too, is harmless iff every row under its fingerprint is over its table or has the range already |
| Ledgers.OthersEarned | src/plan/executor.ts:340-356 | failed batches, restates, promotions and swept rows never mark more than they leave |
| Ledgers.FailedBatchUnmarks | src/plan/executor.ts:340-356 | a failed batch leaves none of its intervals done and every other as it was |
| Ledgers.SweepExact | src/plan/janitor.ts:96-136 | a pass takes a table iff its row is doomed and no survivor has its physical fingerprint, and then no survivor uses it |
| Ledgers.CarefulExact | src/plan/executor.ts:772-848 | for every kind of step the condition on the store is exact over all tables that satisfy the invariant |
| Ledgers.OwnRowExact | src/plan/executor.ts:781-828 | with a row of its own a version may inherit exactly what is covered over its own physics |
| Ledgers.OwnRowCareful | src/plan/executor.ts:781-828 | it may if it shares the other version's physics or has each inherited interval as long itself |
| Ledgers.FreshRowExact | src/plan/executor.ts:781-837 | without a row a planned action may always inherit; if it then fails before the record, only nothing |
| Ledgers.NamesApartExact | src/plan/fingerprint.ts:160-170 | batches over their own row's physics are harmless for every row and range iff no two rows share a fingerprint |
| Ledgers.LedgerSound | src/plan/executor.ts:772-848 | over every history of careful steps each moment of a done interval of a live version was loaded into its physics, by a version prepared over it |
| Ledgers.PlansDescribe | src/plan/planner.ts:407-409 | a plan's action names the existing snapshot's physics, else the inherited one's, else its own, and inherits only from a recorded version |
| Ledgers.ApplyOneIsItsEvents | src/plan/executor.ts:772-848 | a completed action is its preparation and its batches, in that order |
| LedgerGap.LateFailureLosesRows | src/plan/executor.ts:781-828 | a flagged plan breaks after inheriting; the regular plan made next completes and serves a day marked done and never loaded |
| LedgerGap.OwnPhysicsInheritsMarks | src/plan/executor.ts:781-786 | a flagged plan over a version with its own empty table marks the first day done and plans the second alone |
| LedgerGap.TwinsShareFingerprint | src/plan/fingerprint.ts:160-170 | one model under two names in one project has one fingerprint |
| LedgerGap.NamesakeTakesMarks | src/plan/executor.ts:333-357 | one batch of the first marks the second's day done over its empty table |
| LedgerGap.ClaimSparesExact | src/state/sqlite.ts:258-278 | a claim leaves another live row its done marks iff it is no namesake or has none |
| Scd2.Seconds | src/core/interval.ts:110-114 | a timestamp literal is the millisecond clock cut to whole seconds |
| Scd2.ScdTable.Reconcile | src/plan/executor.ts:684-694 | the update and the insert leave the specified versions |
| Scd2.ClosedVersionsStand | src/plan/executor.ts:680-683 | closed versions and those still in the query are left alone; none is lost or reopened |
| Scd2.AddedVersions | src/plan/executor.ts:688-693 | a version is added for every occurrence of a row open in none, and no other |
| Scd2.OpenIsQuery | src/plan/executor.ts:680-694 | afterwards the open rows are exactly the query's rows |
| Scd2.ReapplyIsIdentity | src/plan/executor.ts:682-683 | a query returning the same rows again changes nothing at any time |
| Scd2.AsOf | src/plan/executor.ts:655-694 | the versions valid at a moment are the rows the query returned at the last apply not after it |
| Scd2.ReconstructionExact | src/plan/executor.ts:672-694 | that holds for all queries iff the clocks, to the second, do not go back |
| UniqueKeys.UpsertedCopies | src/plan/executor.ts:637-642 | rows under a returned key are replaced, all others stay |
| UniqueKeys.RerunExact | src/plan/executor.ts:637-642 | refreshing twice is refreshing once iff the query returns no NULL key |
| UniqueKeys.LastWriteWins | src/plan/executor.ts:637-642 | under a key the table holds what the last query returning it returned |
| UniqueKeys.StaysUnique | src/plan/executor.ts:637-642 | queries without repeated keys keep the table without repeated keys |
| UniqueKeys.KeyedTable.Upsert | src/plan/executor.ts:639-642 | the delete and the insert leave the specified rows |
| Fixpoint.EnvironmentServes | src/plan/executor.ts:964-973 | after an apply the environment serves exactly the project's fingerprints |
| Fixpoint.WorkCovers | src/plan/executor.ts:772-848 | a working time-range action leaves every wanted interval done |
| Fixpoint.WorkDoneExact | src/plan/executor.ts:772-848 | a working action makes done exactly what it wants and what it inherits, for its own version alone |
| Fixpoint.WorkKeepsGrains | src/plan/executor.ts:772-848 | a working action planned over grains of the model's unit leaves its version a ledger of grains of that unit |
| Fixpoint.CoverageExact | src/plan/executor.ts:578-582 | every wanted interval is done after an apply iff the model worked, inherits nothing, or had them in its own ledger |
| Fixpoint.PlanApplyFixpoint | src/plan/planner.ts:243-453 | planning again finds every model unchanged, nothing to build and the merged last lookback done intervals as the only backfill iff no model sat the apply out on a ledger it never inherited |
| FixpointGap.IdleInheritorUnsettles | src/plan/executor.ts:578-582 | a plan whose only action is idle, and after whose successful apply the next plan is not settled |
| GrainGap.GrainChangeExact | src/plan/planner.ts:413-437 | what a plan leaves out is done iff the new unit is not coarser or every slot begun by a done grain is done in full |
| GrainGap.HoursHideTheDay | src/plan/planner.ts:347-375 | a forward-only plan from hours to days plans nothing with one hour of the day done |
| Restates.PickTargets | src/plan/restate.ts:164-185 | the targets are the model and its time-range descendants present in the environment |
| Restates.Restate | src/plan/restate.ts:131-207 | accepts exactly a time-range model in the environment with both bounds on its grid and in order, and clears the targets' rows unless it is a dry run; the call is one step |
| Restates.ClearedRows | src/state/sqlite.ts:483-489 | a ledger row goes iff its version is a target and its start falls in the range |
| Restates.RestateCovers | src/plan/restate.ts:164-204 | for the model and every time-range descendant the environment has, the next plan recomputes every wanted interval starting in the range; rows of other versions and outside it stay |
| Restates.OverlapReachedExactly | src/plan/restate.ts:176-204 | every wanted interval overlapping the range is reached iff the start is aligned to that model's grain or its slot is not wanted |
| Restates.FinerTargetsRecomputed | src/plan/restate.ts:125-204 | in every target of the same or a finer grain the next plan recomputes all wanted intervals the range overlaps |
| Scheduler.FinishedAfterParents | src/plan/executor.ts:857-865 | in every reachable state a finished model's gates are finished |
| Scheduler.SlotsSuffice | src/plan/executor.ts:891-892 | at most as many models are under way as there are slots |
| Scheduler.NothingStartsAfterFailure | src/plan/executor.ts:891-892 | once a model has failed, what had not started never does |
| Scheduler.FailureStopsDescendants | src/plan/executor.ts:568-571 | a model that waits for a failed one, directly or through others, never finishes |
| Scheduler.FailurePassesExact | src/plan/executor.ts:857-894 | a later model can finish although an earlier one fails iff it does not wait for it and the slots leave it room |
| Scheduler.FailedAncestorExact | src/plan/executor.ts:857-894 | a model can finish beside the failure of one it depends on iff no chain of working models connects them and the slots leave it room |
| Scheduler.IdleViewPassesFailure | src/plan/executor.ts:857-865 | the reader of an idle view finishes from the old table although the table under the view fails |
| Scheduler.NoDeadlock | src/plan/executor.ts:888-894 | whatever the bound, without a failure and with work left some step is enabled |
| Scheduler.StepsDecrease | src/plan/executor.ts:888-894 | every step lowers a measure |
| Scheduler.Completes | src/plan/executor.ts:888-894 | every failure-free state can be run to completion, keeping what is finished |
| Scheduler.Confluence | src/plan/executor.ts:854-894 | with every read guarded each complete schedule leaves the sequential result |
| Scheduler.UnguardedReadIsStale | src/plan/executor.ts:857-865 | an unguarded read has a schedule that sees the table before it is built |
| Scheduler.ConfluenceExact | src/plan/executor.ts:854-894 | all schedules of all builds and data are sequential iff every read is gated or crowded out by the slots |
| Scheduler.OneSlotIsSequential | src/plan/executor.ts:891-892 | concurrency one, as on DuckDB, always leaves the sequential result |
| Scheduler.JobOf | src/plan/executor.ts:578-584 | gates exist for direct dependencies that work; reads reach through views and embedded models |
| Scheduler.ResolvedExact | src/plan/executor.ts:507-531 | what a query reads is exactly what chains of dependencies through views and embedded models lead to |
| Schedules.PlanHasShape | src/plan/executor.ts:578-583 | the shape is the plan's own: an edge for every dependency, the views and embedded models, and the actions an apply runs, in topological order |
| Schedules.PlanGates | src/plan/executor.ts:578-584 | the job has an entry for every working action, which waits for exactly its working direct dependencies |
| Schedules.PlanFinishedAfterDeps | src/plan/executor.ts:857-865 | in every run of a plan's job a finished model has all its working direct dependencies finished |
| Schedules.PlanSequential | src/plan/executor.ts:854-894 | a plan in which no idle view or embedded model reads what the apply writes leaves the sequential result under every schedule |
| Schedules.DuckDbSequential | src/plan/executor.ts:891-892 | on DuckDB, which has one slot, every schedule of every plan leaves the sequential result |
| Scheduler.NoIdleLazySequential | src/plan/executor.ts:507-531 | without an idle view or embedded model over working tables every schedule is sequential |
| Scheduler.IdleViewRaces | src/plan/executor.ts:857-865 | a backfilled table, an unchanged view over it and a reader of the view race in two slots |
| Store.StateStore.UpsertSnapshot | src/state/sqlite.ts:184-209 | a repeated write clears the orphan mark, renews the creation time and changes nothing else |
| Store.StateStore.GetSnapshot | src/state/sqlite.ts:211-223 | the row under name and fingerprint, if any |
| Store.StateStore.DeleteSnapshotIfDoomed | src/state/sqlite.ts:258-278 | wins iff the row exists, no environment references the fingerprint and its orphan mark, or else its creation, is not after the deadline; then row and ledger go in one step |
| Store.StateStore.CheckAlive | src/state/sqlite.ts:295-310 | passes iff every entry that requires a snapshot has one |
| Store.StateStore.InsertRows | src/state/sqlite.ts:311-318 | the environment's rows are replaced; a repeated name fails |
| Store.StateStore.Promote | src/state/sqlite.ts:290-336 | all checks hold and rows and orphan marks change together, or nothing changes |
| Store.StateStore.MarkIntervals | src/state/sqlite.ts:452-468 | each interval's row is written with the status, later ones over earlier |
| Store.StateStore.ClearIntervals | src/state/sqlite.ts:483-489 | rows of the version starting in the half-open range are deleted |
| Store.StateStore.AcquireLock | src/state/sqlite.ts:393-415 | a lapsed row is reclaimed, a live one refuses |
| Store.StateStore.RenewLock | src/state/sqlite.ts:417-430 | renews only the row with the expected expiry, to a ttl from now; otherwise changes nothing |
| Store.StateStore.ReleaseLock | src/state/sqlite.ts:440-450 | with an expected expiry, deletes only the row that has it |
| Store.StateStore.ForceReleaseLock | src/state/sqlite.ts:440-443 | without one, deletes the row whoever holds it |
| Store.EnvRowsAt | src/state/sqlite.ts:311-318 | other environments' rows stay, every entry gets its row, no other row appears |
| Store.MarkRowsAt | src/state/sqlite.ts:452-468 | marking touches exactly the slots of the version at those starts |
| Store.MarkedDone | src/state/sqlite.ts:452-468 | marking done makes exactly those starts done and undoes none |
| History.MarksAlwaysHonest | src/state/sqlite.ts:319-331 | in every state of every history a marked snapshot is unreferenced |
| History.PromotionMarks | src/state/sqlite.ts:319-331 | a promotion marks exactly the snapshots left unreferenced, now unless marked already, clears the others and changes nothing else of any |
| History.MarksFollowReferences | src/state/sqlite.ts:184-336 | every reference that has ended, ended by the row's age mark |
| History.ClaimRespectsTtl | src/state/sqlite.ts:258-278 | when a claim with a deadline succeeds, no environment referenced the fingerprint after it |
| History.RevivalWins | src/state/sqlite.ts:188-196 | a snapshot written again after the deadline is not claimed |
| Janitors.PromotedRowsStayAlive | src/state/sqlite.ts:295-310 | over every interleaving a row promoted with requireSnapshot has a live snapshot |
| Janitors.PromotedEntryStays | src/state/sqlite.ts:290-336 | an entry promoted with requireSnapshot is served and has a live snapshot, whatever else happens, until its environment is promoted again |
| Janitors.LivePhysicsStays | src/plan/janitor.ts:90-147 | over every interleaving with quiet drops no live snapshot and no build in flight loses its table |
| Janitors.PromotedRowsHavePhysics | src/plan/janitor.ts:118-147 | there a promoted row of a materialized model has its table |
| Janitors.DropExact | src/plan/janitor.ts:121-136 | a drop is harmless iff nothing live and nothing in flight uses the table |
| Janitors.RecordInWindowLosesPhysics | src/plan/janitor.ts:121-136 | a record between survivor read and drop loses its table |
| Janitors.BuildAcrossWindowLosesPhysics | src/plan/janitor.ts:121-136 | so does a build before the read recorded after the drop |
| Janitors.ClaimOneMore | src/state/sqlite.ts:258-278 | claiming one more doomed row removes just that row and its ledger |
| Janitors.DropPhase | src/plan/janitor.ts:118-136 | of the claimed tables whose fingerprint no survivor carries one per fingerprint is dropped, and nothing else |
| Janitors.RunJanitor | src/plan/janitor.ts:72-149 | removed and kept are exactly the doomed and the young unreferenced rows; only tables no survivor uses go, and all of them iff no two share a fingerprint and no survivor carries one |
| Janitors.UnusedButListed | src/plan/janitor.ts:118-120 | a survivor that carries an unused table's fingerprint is another model's or has no physics |
| Janitors.SharedPhysicsStaysBehind | src/plan/janitor.ts:118-136 | two models under one fingerprint, one or both claimed: a table no row names stays behind |
| Lock.MutualExclusion | src/plan/lock.ts:64-99 | in every timely run at most one process's fence is the row's expiry |
| Lock.ReclaimedHolderIsHarmless | src/plan/lock.ts:69-99 | a reclaimed holder's beat and release leave the new lease alone |
| Lock.PunctualHolderKeepsLock | src/plan/lock.ts:75-87 | while every beat lands before the last written expiry no other acquire succeeds |
| Lock.BeatingHolderKeepsLock | src/plan/lock.ts:75-87 | a holder whose successive beats are less than a ttl apart keeps the lock: no acquire succeeds and the row expires a ttl after its last beat |
| Lock.GapExact | src/plan/lock.ts:75-87 | beats at most a gap apart keep the lock whatever others do iff the gap is less than the ttl |
| Lock.HeartbeatCushion | src/plan/lock.ts:21-27 | one missed beat is survived iff the ttl is at least three, two iff moreover it is not a multiple of three |
| Lock.HeartbeatKeepsLock | src/plan/lock.ts:21-27 | the heartbeat keeps the lock from two milliseconds on, with one beat missed from three, with two iff the ttl is not a multiple of three |
| Lock.DefaultTtlThirdBeat | src/plan/lock.ts:19-27 | under the default ttl the third beat falls on the moment another process may reclaim |
| Lock.SeedDelayExact | src/plan/lock.ts:64-73 | the fences stay exclusive whatever others do iff the expiry is read back within the ttl |
| Lock.ZeroTtlShares | src/state/sqlite.ts:400-402 | with a ttl of zero two processes hold under one fence |
| Leases.Lease.Acquire | src/plan/lock.ts:64-65 | acquiring is the protocol's step and succeeds iff no live row stands |
| Leases.Lease.Seed | src/plan/lock.ts:69-73 | the row read back becomes the fence |
| Leases.Lease.Beat | src/plan/lock.ts:75-83 | renews to a ttl from now and advances the fence iff it still matches, else changes nothing and gives up |
| Leases.Lease.Release | src/plan/lock.ts:89-98 | frees the row iff the fence still matches, else changes nothing |
| Compaction.WritePath | src/plan/compact.ts:283-291 | the temporary name is not one readers look at |
| Compaction.FailedMergeLeavesNothing | src/plan/compact.ts:373-384 | a failed merge leaves the directory as it was, without its temporary file |
| Compaction.TempNamesApart | src/plan/compact.ts:306-307 | two processes do not share a temporary file |
| Compaction.ParquetNames | src/plan/compact.ts:283-291 | the names a reader looks at are those with the suffix |
| Compaction.SameFirst | src/plan/compact.ts:270-281 | dropping rows that are not first leaves the de-duplicated view |
| Compaction.MergedBacks | src/plan/compact.ts:258-281 | under a total order every first row of the inputs is in the merged file |
| Compaction.ViewNeverChanges | src/plan/compact.ts:353-393 | at every step, crash and second run the view is the first row per key of everything ever written |
| Compaction.LateFilesStay | src/plan/compact.ts:368-391 | a file that arrived after the listing stays as it was written, whatever the policy |
| Compaction.PublishedNameExact | src/plan/compact.ts:361-391 | with a key and a total order the view always holds iff the published name ends in .parquet |
| Compaction.OrderExact | src/plan/compact.ts:270-281 | however the engine settles ties, a round keeps the view iff the order leaves no tie for first place |
| Compaction.UnkeyedRoundKeepsRows | src/plan/compact.ts:273-275 | without a key an undisturbed round, whatever it merges, keeps every row as often as it stood in the files |
| Compaction.KeyedRoundOnePerKey | src/plan/compact.ts:270-281 | with a key it leaves one row, a first one, for every key the files had |
| Compaction.UnkeyedCrashDoubles | src/plan/compact.ts:386-391 | without a key, dying after the rename and running again doubles every row |
| Compaction.CrashPointExact | src/plan/compact.ts:371-391 | without a key, dying after any number of steps and running again keeps the row counts iff it died before the rename or the files still to delete hold no rows |
| Compaction.Directory.IsSettled | src/plan/compact.ts:334-360 | a partition is passed over iff it is undated, not before today, has fewer files than the policy asks for, or a file was touched within the grace period; the first that applies is the reason |
| Compaction.Directory.Merge | src/plan/compact.ts:270-281 | one first row per key, or all rows without a key |
| Compaction.Directory.Replace | src/plan/compact.ts:371-391 | the merged file stands in for exactly the listed ones |
| Compaction.Directory.CompactPartition | src/plan/compact.ts:330-393 | only a settled partition is touched, a dry run writes nothing, and what happens is a run of the modelled steps |
| SqlTexts.ParseSqlText | src/core/sql.ts:171-188 | the cursor loop finds the leftmost tokens, as the specification does |
| SqlTexts.RefMatches | src/core/sql.ts:172-173 | a printed reference is matched as itself |
| SqlTexts.BoundMatches | src/core/sql.ts:172-173 | a bound is matched iff no word character follows |
| SqlTexts.BoundExact | src/core/sql.ts:172-173 | a bound is matched unless a letter, a digit or an underscore follows |
| SqlTexts.SpaceExact | src/core/sql.ts:172-173 | the white space of a reference is that of the JavaScript class |
| SqlTexts.PrintOfParse | src/core/sql.ts:165-188 | a text is a row of plain texts without tokens, references with white space around a name, and bounds; printing what was parsed restores every piece but that white space |
| SqlTexts.OnlySpaceIsLost | src/core/sql.ts:165-188 | parsing and printing changes nothing but white space |
| SqlTexts.RestoredExact | src/core/sql.ts:165-188 | a text is restored iff none of its references has white space around the name |
| SqlTexts.ParseOfPrintExact | src/core/sql.ts:165-188 | printed nodes parse back to themselves iff texts are non-empty and apart, names are proper, bounds end at a word boundary and no token begins inside a text |
| SqlTexts.SqueezingIsNotStable | src/core/sql.ts:165-188 | a text whose printed form parses to something else |

## Left out

- Reuse.ReuseSound: the model and all it depends on are in the fragment (row-wise selects over declared dependencies, no forward-only flag, no operator override); a flag or an override states the operator's will, not the data's.
- ReuseExactness.ReuseExact: same scope; the environment's project is known, as the one the environment was last applied from.
- ReuseApply.ApplyKeepsTruth: says nothing of forward-only actions, whose old rows stay as the old version computed them.
- Janitors.LivePhysicsStays: assumes quiet drops (no apply works on a claimed table until it is dropped), which the code's two separate locks do not ensure.
- Ledgers.LedgerSound: assumes careful steps, as `CarefulExact` says exactly; takes a janitor pass as one step and `done` to mean loaded, whatever the query returned.
- Ledgers.OthersEarned: a pass of the janitor is one step here; `Janitors` has its interleavings.
- Executor.RunTimeRange: the path on which the contract check, column evolution and every batch succeed; failing batches are in `Backfills` and `Ledgers`.
- Executor.ApplyPlan: no build fails and actions run in order; failures and concurrency are in `Scheduler`.
- Fixpoint.PlanApplyFixpoint: ledger rows are grains of the model's present unit, which `WorkKeepsGrains` keeps and a change of unit breaks (`GrainGap`), and the converse assumes distinct fingerprints.
- Fixpoint.CoverageExact: the same two assumptions.
- Restates.Restate: the environment is read before the lock is taken; the model takes the call as one step.
- Restates.RestateCovers: ledger rows are grains of the model's present unit.
- Scheduler.ConfluenceExact: a build reads its inputs at one moment and writes its table at another; batches of one build are not interleaved with other builds, though a failed build may leave anything.
- Backfills.ResumeIsRecompute: the query's answer is the same in every run; late data, which lookback is for, only enters through the tail being recomputed.
- Lock.PunctualHolderKeepsLock: assumes one clock for all processes.
- UniqueKeys.RerunExact: a one-column key; engines differ on NULL inside row values.
- Compaction.ViewNeverChanges: one compactor per partition and a writer that only appends files under new names; the code's own comment excludes the rest.
- Compaction.CrashPointExact: no file arrives between the two runs; `LateFilesStay` has those.
- Query.SelectStable: row-wise selects over a product of relations with qualified, distinct column names; aggregates, DISTINCT, set-returning items and window functions are outside the fragment.
- SqlTexts.ParseSqlText: the `sql` template builder, `render` with a resolver and identifier quoting are left out.
- `src/state/postgres.ts`: the same operations; each store operation is taken as one serializable step.
- SQL execution, canonicalization, sha256 and JSON: opaque; the hash is injective on what it hashes.
- ISO strings are integers, ordered as the strings are for years 0 to 9999; only the cut to seconds is kept.
- Explanations, window warnings, metrics, logging, retries, journals, redaction, lineage, status and diff paths are not modelled.
- Parquet and DuckLake targets, manifests, exports, object stores and the file-system branch of the janitor.
- Schema contract checks, audits' queries and column evolution: they appear only as points where an apply may fail.
- Environment views are swapped before the promotion; safety is stated over environment rows, not over views.
- The journal of applied plans and the canonicalization cache's table are not part of the store's state.
- Listing orders by name and time (`listSnapshots`, `listIntervals`, the sorted file list): the janitor's and the compactor's results are stated for any order.
- `deleteSnapshot` without a guard has no caller in the modelled code.
- Compaction derives its targets from the project's models; the model starts from one partition.
