# A verified model of the curation system's write path and its algorithms

This Dafny project models how the curation system turns candidate knowledge into a graph, and
proves what its parts promise. It has five parts.

1. **The write path.** A planner compiles resolved candidates into a guarded plan (`Planning`, with
   what a plan holds in `PlanContents`); the concept-evolution planner emits successions of one
   fact's records (`Evolution`, with what its plans hold in `EvolutionPlans`); the executor checks a
   plan's guards against the graph's epoch and commits it as a whole (`Execution`, with every
   outcome in `Outcomes`) to a store (`GraphStore`); the compensator emits the inverse plan
   (`Compensation`). The main results are about whole runs: rollback and undo of undo for arbitrary
   operation lists (`Rollback`), optimistic concurrency and the audit stream over any interleaving
   of callers (`Runs`), and the supersession protocol (`Supersession`).
2. **Jaro and Jaro-Winkler similarity** (`Jaro`): the two array passes, refined to a greedy
   matching that is characterised as the one stable matching, which makes the measure symmetric.
3. **Entity resolution**: the blocking index against its quadratic definition (`Blocking`), the
   strong-identifier rule (`Identity`), whole-membership validation (`Clusters`, with its
   verdicts told from the members in `ClusterVerdicts`) and survivor selection (`Survivor`).
4. **Encoders and printers**: canonical JSON (`CanonicalJson`, read back by section 7 of RFC 8259
   for string escapes), record seeds and fact keys (`Records`), base-32 ids (`Ids`), escaped evidence lines
   (`Evidence`).
5. **The review queue and its backlog** (`ReviewQueue`, `Backlog`, and what holds a source back
   in `BacklogSignals`).

`Wrappers`, `Sequences`, `Numerals`, `Ordering`, `Contracts` and `EntityView` hold shared
definitions. `dafny verify dfyconfig.toml` checks everything.

## How the model relates to the code

- A class that updates its fields is a class here (`GraphStore.Store`, `Execution.PlanExecutor`,
  `EpochPublisher`, `AuditSink`, `Compensator`, the two review stores and the queue); its methods
  are proved against functions on values, and the theorems are about those functions. Loops are
  methods with invariants. Pure construction is functions.
- A plan's execution is one atomic step. A client that reads at one moment and executes later is a
  plan stamped with the epoch of an earlier world of the run.
- The graph is one sequence of rows in order of arrival; a subject's list is the part of it with
  that subject. An adapter is described by the operation types it applies, whether it attaches by
  record id or appends, and whether a status change that names no row is refused (`strict`): the
  library store behind the harness is not part of this model, so both readings are covered. Both
  adapters of the repository are instances (`GraphStore.E2E`, `GraphStore.REFERENCE`).
- Digests are parameters (`IdFactory.sha`, `Planner.digest`). No theorem assumes them injective
  throughout; where ids must differ, the hypothesis is that the two seeds in question do not
  collide.
- A JSON-mode dump turns a top-level date into its text; the text is taken to be the ISO text.
  Texts are sequences of Unicode scalar values, so a lone surrogate is not modelled. A float is
  carried as the text Python prints for it. Scores are reals, and so is a reliability, so NaN is
  not modelled.

Where the code differs from its own words, the model follows the code:

- A compensating plan keeps every snapshot guard of its source plan, so it has as many as the
  source, and at least one, where the documentation says exactly one
  (`Compensation.GuardsExpectEpoch`).
- `next_record` refuses only a successor equal to its immediate prior. Going from a record to other
  content and back mints the first record's id again; both steps commit, and the second rewrites
  the first record's history (`Evolution.WayBackMintsOldId`, `Supersession.WayBackRewritesHistory`).
  `Supersession.HistorySafeIff` gives the exact condition under which history stays, and
  `Supersession.IdIsNewIffRecordIs` says when a minted id is new.
- The read behind an absence guard hides revoked records (executor.py:486-499, planner.py:579-580),
  as ADR-0020 notes. So a record with a revoked row passes its guard, and a store that appends gives
  it a second row (`Runs.RevokedRecordComesTwice`); `Runs.GuardedNeverDuplicatesIff` gives the exact
  condition, and `Planning.PlannedRunsNeverDuplicate` shows that it never arises from planned plans
  and their compensations, in a graph that starts without revoked records.
- The tag on dates keeps a date apart from a text, as documented, but not from the list of the tag
  and that text (`Records.ValueJsonIff`).
- A row's seed gives back the id its planner minted for JSON values, but not for a date, which is
  stored as text (`Planning.StoredSeedIff`).
- A rendered evidence line is one line unless the record has no text and its unescaped payload hash
  contains a line break (`Evidence.LineIsOneLineIff`).
- A creation undone twice comes back as a restoration (`Compensation.CompensatingTwice`).

## Model

| member | source | states |
|---|---|---|
| GraphStore.Store.AttachAssertion | tests/kgcs/e2e_harness.py:164-182 | Attaching overwrites the subject's first row with that record id in its slot, and appends otherwise; the rows afterwards are exactly that. |
| GraphStore.Store.Retract | tests/kgcs/e2e_harness.py:125-153 | A status change retires the first row with the id, keeps an existing pointer when it names no successor, refuses a self-pointer, and changes nothing when it fails. |
| GraphStore.Store.ApplyBatch | tests/kgcs/e2e_harness.py:97-162 | A batch applies as a whole: epoch plus one, touched versions plus one, or any failure leaves rows, entities, versions and epoch as they were. |
| GraphStore.RunOpsAppend | tests/kgcs/e2e_harness.py:110-153 | Running two lists one after the other is running their concatenation. |
| GraphStore.RunOpsKeepsRows | tests/kgcs/e2e_harness.py:125-182 | No operation of any adapter removes or moves a row, or makes it the record of something else. |
| GraphStore.StepIff | tests/kgcs/e2e_harness.py:97-162 | When an operation does not run: its type is not implemented, its payload is not its own or the status change is refused, or the identity to revoke or restore is not there. |
| GraphStore.StoresApply | tests/kgcs/e2e_harness.py:97-153 | Which operation types each of the two stores applies; the harness store refuses a status change of a record that is not there. |
| GraphStore.AttachStep | tests/kgcs/e2e_harness.py:164-182 | What an attach leaves behind: the record with the commit's epoch in place of the subject's first row with its id, or behind all rows. |
| GraphStore.RetractStep | tests/kgcs/e2e_harness.py:125-153 | What a status change leaves behind: the first row with the id retired with the time and pointer named, every other row as it was. |
| GraphStore.IdentityStep | tests/kgcs/test_compensate.py:713-973 | What a creation, revocation or restoration leaves behind: the identity it names created with the commit's epoch or changed in status, no other touched. |
| GraphStore.VersionsCount | tests/kgcs/e2e_harness.py:97-162 | A commit advances the version of each subject and identity by exactly the number of operations about it, for a status change the subject and not the record, and the epoch by one; anything else changes nothing. |
| Execution.PlanExecutor.UnmetPreconditions | src/kgcs/executor/executor.py:395-500 | The loop returns exactly the unmet guards in order: snapshot guards against the current epoch, absence guards against live and superseded rows, since the read hides revoked ones. |
| Execution.PlanExecutor.SelfConflictingGuards | src/kgcs/executor/executor.py:427-484 | Names exactly the attaches whose record id the plan mints more than once, whatever their subjects. |
| Execution.PlanExecutor.Precheck | src/kgcs/executor/executor.py:266-340 | The checks before the store, in their order, decide the refusal. |
| Execution.PlanExecutor.ExecutePlan | src/kgcs/executor/executor.py:266-391 | One attempt moves graph, watermark and audit stream together as `Execute` says, and returns its record, or none where an exception escapes. |
| Execution.AttemptCases | src/kgcs/executor/executor.py:266-391 | A plan either commits, which advances the epoch by one and is reported with that epoch, or leaves the graph as it was and reports no epoch. |
| Execution.CommitFacts | src/kgcs/executor/executor.py:300-391 | A commit shows that every guard held and that no record id was minted twice, and the next table is the run of the operations. |
| Execution.CommitKeepsRows | src/kgcs/executor/executor.py:266-391 | No attempt removes a row or changes what it is the record of. |
| Outcomes.OutcomeIff | src/kgcs/executor/executor.py:266-391 | Every outcome, and exactly when it is reported: EMPTY, UNSUPPORTED_OPERATION, ERROR, STALE and COMMITTED are told from the plan, the guards and the store, which fixes the order of the checks. |
| Outcomes.CommitsIff | src/kgcs/executor/executor.py:266-391 | A plan commits exactly when it has operations of admitted types only, mints no record twice, has no false guard, and the store can run it. |
| Outcomes.RecordNamesPlan | src/kgcs/executor/executor.py:502-560 | The record names the plan and all its operation ids in order, and has a new epoch exactly for a commit. |
| Outcomes.UnsupportedTypesIff | src/kgcs/executor/executor.py:286-391 | Which types are reported: those of the plan that are not admitted, or where the store stopped, those not admitted by default; for every other outcome none. |
| Outcomes.ConflictNamesAttaches | src/kgcs/executor/executor.py:427-484 | A plan that mints a record twice is reported with exactly the guards of the attaches whose id another operation attaches too. |
| Outcomes.OtherwiseNoGuards | src/kgcs/executor/executor.py:266-391 | Apart from a stale plan, only a plan in conflict with itself is reported with guards. |
| Execution.EpochPublisher.Publish | src/kgcs/memory/execution.py:37-42 | The watermark moves to the epoch only if that is later. |
| Compensation.Compensator.Compensate | src/kgcs/executor/compensate.py:166-234 | The loop from last to first computes the compensation, or the first error met on the way. |
| Compensation.InvertAllStructure | src/kgcs/executor/compensate.py:211-280 | Every source operation appears exactly once, as its inverse in reverse order or among the non-compensable ones. |
| Compensation.KeepPartitions | src/kgcs/executor/compensate.py:211-234 | Compensable and non-compensable operations partition the plan. |
| Compensation.InvertAllOkIff | src/kgcs/executor/compensate.py:236-317 | Inversion is refused exactly when an operation with an inverse type has no usable inverse payload. |
| Compensation.CompensationOkIff | src/kgcs/executor/compensate.py:166-234 | Compensation is refused exactly for a value that is no epoch or a missing or malformed inverse payload. |
| Compensation.CompensationErrIff | src/kgcs/executor/compensate.py:166-317 | Which error a refused compensation gives: the epoch first, and then the last operation without a usable inverse, as malformed or missing. |
| Compensation.CompensationByType | src/kgcs/executor/compensate.py:211-280 | What undoes what, type by type: a merge is undone by a split and a split by a merge, only a reassignment by its own type; the plan holds the inverse of every operation but promotions, last first, and exactly the promotions are handed back. |
| Compensation.CompensationKeepsParts | src/kgcs/executor/compensate.py:211-234 | The candidates, evidence and snapshot guards come from the source plan; each guard keeps its subject and expects the epoch given. |
| Compensation.GuardsExpectEpoch | src/kgcs/executor/compensate.py:319-344 | All guards are snapshot guards expecting the given epoch: as many as the source plan has, and at least one. |
| Compensation.RedoneIsInverseTwice | tests/kgcs/test_compensate.py:274-300 | The inverse of the inverse is the type itself, except that a creation comes back as a restoration. |
| Compensation.CompensatingTwice | src/kgcs/executor/compensate.py:236-280 | Compensating a compensation is never refused, leaves nothing out, and returns the compensable operations' payloads in their original order with their types restored. |
| Rollback.ApplyIgnoresEpochs | tests/kgcs/e2e_harness.py:110-182 | An operation does the same to a table whatever commit epochs its rows carry. |
| Rollback.UnwindAll | src/kgcs/executor/compensate.py:211-280 | Undoing a whole list, last first, in any table covering its outcome leads to one covering its start, even where the list creates an identity again. |
| Rollback.RedoAll | src/kgcs/executor/compensate.py:211-280 | Redoing the list from what undoing left leads back to the very table undone, whichever of the identities created are revoked meanwhile. |
| Rollback.UndoersMintOnce | src/kgcs/executor/executor.py:427-484 | No two operations undoing a plan that ran enabled attach one record, so its compensation passes the self-conflict check. |
| Rollback.NotOvertakenCommits | src/kgcs/executor/executor.py:266-391 | A plan stamped with the current epoch commits if its types are admitted and the store can run it. |
| Rollback.RollbackRestores | src/kgcs/executor/compensate.py:166-280 | For every plan of creations, attaches and retractions, each enabled where it runs (a creation may name an identity of the plan again), whose inverses the store takes: its full compensation commits at the commit epoch, restores the live rows and entities, keeps every old row in place, leaves every old identity exactly as it was and every creation epoch alone, and besides leaves only retired rows and revoked identities. |
| Rollback.UndoOfUndoRestores | tests/kgcs/test_e2e_concurrency.py:366-395 | Compensating that compensation commits too, wherever the types to come back with are taken, and gives back the rows the plan had left, except commit epochs, and its identities exactly, creation epochs included. |
| Rollback.CreationsOnReference | tests/kgcs/test_compensate.py:713-973 | On the append-only reference store every enabled plan of creations rolls back and comes back, with its creation epochs. |
| Rollback.RecordsOnE2E | tests/kgcs/test_e2e_concurrency.py:366-395 | On the store of the end-to-end harness every enabled plan of attaches and retractions rolls back and comes back. |
| Rollback.RunKeepsCreations | tests/kgcs/test_compensate.py:922-973 | No operation but a creation adds, drops or re-dates an identity. |
| Rollback.OneRowPerRecord | tests/kgcs/e2e_harness.py:164-182 | Through plan, compensation and its compensation no row goes or moves, and no record id gets a second row. |
| Runs.RunAdvances | src/kgcs/executor/executor.py:266-391 | Between any two moments of any run the epoch advances by exactly the number of commits, the graph is the same exactly when the epoch is, and rows stay. |
| Runs.AtMostOneCommitPerSnapshot | src/kgcs/executor/executor.py:395-425 | Of all plans read at one snapshot at most one ever commits; so no plan with a snapshot guard commits twice. |
| Runs.OvertakenStaysStale | src/kgcs/executor/executor.py:300-391 | A plan overtaken by any commit changes nothing at any later call, and is STALE naming its guard where nothing else is wrong with it. |
| Runs.CompensationGuardsIff | src/kgcs/executor/compensate.py:319-344 | A compensation meets its guards exactly while the graph is at the epoch it was built for. |
| Runs.WatermarkIsLastCommit | src/kgcs/memory/execution.py:37-42 | The published watermark is the epoch of the last commit, or what it was if there was none. |
| Runs.WatermarkNeverRegresses | src/kgcs/memory/execution.py:26-42 | The watermark never moves back, whatever it stood at. |
| Runs.AuditReportsEveryCommit | src/kgcs/executor/executor.py:502-560 | The committed records of the audit stream carry the consecutive epochs from the first commit on, without gap or repeat. |
| Runs.SelfConflictIff | src/kgcs/executor/executor.py:427-484 | A plan conflicts with itself exactly when two of its attaches mint one record id, under whatever subjects. |
| Runs.StaleNamesFalseGuards | src/kgcs/executor/executor.py:300-391 | A STALE record names exactly the false guards: the executor's, or the store's where the executor let the plan through. |
| Runs.GuardedCommitIsFreshIff | src/kgcs/executor/executor.py:395-500 | A committed plan that guards its attaches mints nothing the graph holds, and nothing twice, exactly when nothing it mints has a revoked row. |
| Runs.CommitDuplicatesIff | src/kgcs/executor/executor.py:266-391 | On an append-only store the commit of any plan, guarded or not, gives a record a second row exactly when it mints one that the graph holds. |
| Runs.GuardedMintsIff | src/kgcs/executor/executor.py:395-500 | Where the plan guards its attaches, that is exactly when it mints one that has a revoked row. |
| Runs.RevokedRecordComesTwice | src/kgcs/executor/executor.py:486-499 | The failing input: on the empty reference store, a guarded attach of a revoked record commits twice. |
| Runs.NeverDuplicatesIff | src/kgcs/executor/executor.py:266-391 | On an append-only store, over any run of any plans, no record has two rows exactly as long as no call committed one that the graph held. |
| Runs.GuardedNeverDuplicatesIff | src/kgcs/executor/executor.py:395-500 | Where all plans guard their attaches, exactly as long as no call committed one that had a revoked row. |
| Runs.UpsertNeverDuplicates | tests/kgcs/e2e_harness.py:164-182 | A store that attaches by id never gives a record a second row, whatever the plans. |
| Runs.NoneRevokedThroughout | src/kgcs/executor/executor.py:266-391 | A run whose plans attach no record as revoked never holds one. |
| Runs.NeverDuplicates | src/kgcs/executor/executor.py:395-500 | Where no plan attaches a record as revoked and every plan guards its attaches, or where the store attaches by id, no record of a subject ever has two rows, on an append-only store either. |
| Planning.Preconditions | src/kgcs/planner.py:395-438 | The loop emits the snapshot guard first and then each operation's own guard in operation order. |
| Planning.EvidenceIds | src/kgcs/planner.py:440-449 | The cited evidence ids, each where it is first cited. |
| Planning.MakePlan | src/kgcs/planner.py:151-185 | The loop over the candidates computes the plan, none where nothing is planned, or the first value no seed can hold. |
| PlanContents.OneItem | src/kgcs/planner.py:189-392 | An item has an operation exactly when it is routed for automatic application with an identity and carries a new entity, a value or a relation with an object; it is refused exactly for a value no seed can hold. |
| PlanContents.PlanHolds | src/kgcs/planner.py:151-207 | There is no plan exactly when no item is of that kind; otherwise it has one operation for each such item, in order, and each carries its item out, field by field: the creation of the entity claimed or the attach of the record claimed, with the operation that undoes it. |
| PlanContents.PlanGuards | src/kgcs/planner.py:395-438 | The snapshot guard, filed under the first planned item's graph, and then for each operation that its record is absent or its identity never touched. |
| PlanContents.PlanCites | src/kgcs/planner.py:440-449 | The plan cites exactly the evidence of the items planned, each piece once. |
| PlanContents.PlanIdIs | src/kgcs/planner.py:451-452 | The plan's id comes from its candidates, listed with a bar between two, and the snapshot and policy versions. |
| PlanContents.PlanErrIff | src/kgcs/planner.py:151-185 | Planning is refused exactly when some item to be written has a value no seed can hold, and names the first one. |
| Planning.PlanningKeepsOrder | src/kgcs/planner.py:151-207 | One operation for each item that asks for one, its own, in input order; refused exactly when some item's value cannot be rendered. |
| Planning.GuardsInOrder | src/kgcs/planner.py:395-438 | After the snapshot guard comes one guard per operation, in operation order. |
| Planning.PlansAreGuarded | src/kgcs/planner.py:395-438 | Every plan has its snapshot guard, an absence guard for everything it attaches, and a version guard for every identity it creates. |
| Planning.PlansCompensateInFull | src/kgcs/planner.py:528-598 | Every plan compensates in full, and its compensation mints no record. |
| Planning.ReplannedNeverCommits | src/kgcs/planner.py:395-438 | Where no record is attached as revoked: once a record is committed, no plan that guards its attaches, as every planned one does, ever commits it again, replayed or replanned at whatever epoch, on an append-only store too. |
| Planning.ReplannedSeesOnlyRevoked | src/kgcs/executor/executor.py:486-499 | In any run a committed record stays recorded, and a plan that guards its attaches and mints it again commits only if all its rows are revoked by then. |
| Planning.OriginIsSafe | src/kgcs/planner.py:395-598 | Every planned plan and every full compensation of one guards what it attaches, and attaches nothing as revoked. |
| Planning.PlannedRunsNeverDuplicate | src/kgcs/planner.py:395-438 | So over any run of planned plans and their compensations no record ever has two rows, on an append-only store either. |
| Planning.AttemptKeepsVersions | tests/kgcs/e2e_harness.py:154-157 | Every identity in the graph has a version above zero, and every attempt keeps it so. |
| Planning.PlansRollBackIff | src/kgcs/planner.py:395-438 | A committed planned plan rolls back exactly when the inverses of its operations are admitted and no id it mints has a row its guard does not see, of another subject or revoked; it then comes back too, where the types to come back with are admitted. Creating an identity twice does no harm. |
| Planning.PlannedCreationsRollBack | tests/kgcs/test_compensate.py:713-973 | Planner, executor and compensator together on the reference store: every committed plan of creations rolls back and comes back, even one that creates an identity twice. |
| Planning.StoredSeedIff | src/kgcs/planner.py:344-359 | The stored row's seed is the minted seed exactly when the object is a JSON value. |
| Evolution.NextRecordIff | src/kgcs/recuration/evolution.py:395-484 | `next_record` refuses exactly a successor that is the same record as its prior: same object, identity, period, origin and ordered evidence. |
| Evolution.NextRecordIsNew | src/kgcs/recuration/evolution.py:453-484 | A successor is a live record of the same slot with a derived id, different from its prior's unless the digest collides. |
| Evolution.NextRecordHolds | src/kgcs/recuration/evolution.py:395-484 | Each field asked for is in the next record and each other one is the prior's; evidence and time are the new ones; it is live, from no candidate, and not yet committed. |
| Evolution.NextRecordOutcome | src/kgcs/recuration/evolution.py:453-484 | A change is refused as a replay exactly when the evidence is the same and whatever it gives agrees with the prior as rendered; a value no seed can hold is refused first. |
| Evolution.DerivedIdIff | src/kgcs/records.py:214-229 | Two derived ids agree exactly when the records are the same record of the same fact. |
| Evolution.WayBackMintsOldId | src/kgcs/recuration/evolution.py:475-484 | From any row with the content of a change, changing back to a record the first one equals is not refused and mints the first record's id again. |
| Evolution.WayBackIsOpen | src/kgcs/recuration/evolution.py:475-484 | That way is open from every record: cite one more source, then the first ones again. |
| Evolution.PlanSupersessionIff | src/kgcs/recuration/evolution.py:633-667 | A supersession is planned exactly for a live record and another record of its slot, and each of the three refusals says what failed first. |
| Evolution.SupersessionResult | src/kgcs/recuration/evolution.py:536-583 | Applied to a table that holds the prior and not the successor's id, the plan leaves exactly the retired copy it returned in the prior's place and the successor at the end. |
| Evolution.SupersessionCanRollBack | src/kgcs/recuration/evolution.py:545-570 | Such a supersession carries what a rollback needs. |
| Evolution.AdditionsKeepEverything | src/kgcs/recuration/evolution.py:344-392 | Relabelling, corroboration and an unresolved conflict leave every row exactly as it is and append the new record; only a conflict asks for review, and links the two records. |
| Evolution.PointersAgree | src/kgcs/recuration/evolution.py:752-782 | The pointer in the payload and the typed one on the returned copy name the successor, never the record itself. |
| EvolutionPlans.AdditionsAre | src/kgcs/recuration/evolution.py:344-392 | A relabelling, a corroboration and a conflict each attach one record and retire none; only a conflict links two records and asks for review. |
| EvolutionPlans.SupersessionIs | src/kgcs/recuration/evolution.py:486-630 | A supersession attaches the successor first and retires its prior second, with the undoing payload of each, and returns the prior retired to the successor. |
| EvolutionPlans.PlansCite | src/kgcs/recuration/evolution.py:683-721 | Every plan cites the trigger's evidence, and all but a relabelling the record's too, each piece once. |
| Supersession.ReplacingKeepsOrder | src/kgcs/recuration/evolution.py:486-583 | Replacing the live record by a new one keeps one live record, its history and its links. |
| Supersession.CommitSeesItsRead | src/kgcs/executor/executor.py:395-425 | A supersession that commits sees the very graph it was planned on, however many calls came in between. |
| Supersession.FirstRecordStartsOrder | src/kgcs/recuration/evolution.py:344-365 | A first record attached at the current epoch under a new id commits and is the slot's one live record. |
| Supersession.FreshReadCommits | src/kgcs/recuration/evolution.py:486-583 | A client that reads the graph and executes before anyone else commits is never refused. |
| Supersession.ProtocolKeepsOrder | src/kgcs/recuration/evolution.py:486-583 | At every moment of every run of readers and other callers, refused calls of any kind included, a fact changed by supersession alone has exactly one live record, and every other one is replaced by a later row of a later epoch. |
| Supersession.HistoryIsNeverRewritten | src/kgcs/recuration/evolution.py:633-667 | Between any two moments of such a run no retirement is rewritten, and nothing about a record changes but its one retirement. |
| Supersession.ChaseFindsLive | src/kgcs/recuration/evolution.py:486-540 | Following `superseded_by` from any record ends at the one live record, through strictly later epochs. |
| Supersession.IdIsNewIffRecordIs | src/kgcs/recuration/evolution.py:475-484 | In a table of derived ids a minted id is new exactly when no row, live or retired, is the same record of the same fact. |
| Supersession.DerivedThroughout | src/kgcs/records.py:214-229 | Over any run whose plans attach derived records, every row has the id its own content gives. |
| Supersession.PlanAttachesDerived | src/kgcs/planner.py:344-359 | A planner's plan attaches derived records, if the values claimed are JSON values. |
| Supersession.SupersessionAttachesDerived | src/kgcs/recuration/evolution.py:536-583 | So does a supersession by a derived record with a JSON value. |
| Supersession.FreshIffNewThroughout | src/kgcs/recuration/evolution.py:475-484 | So at every moment of such a run the protocol's hypothesis that a minted id is new says exactly that no row, live or retired, is the same record of the same fact. |
| Supersession.HistorySafeIff | tests/kgcs/e2e_harness.py:164-182 | A supersession leaves the subject's retired rows as they are exactly when the successor's id does not name one of them. |
| Supersession.WayBackRewritesHistory | src/kgcs/recuration/evolution.py:475-583 | From any graph with a live, derived record of a JSON value: superseding it by a record that cites one more source, and that one by a record that cites the first sources again, both commit, and the first record's row no longer holds its retirement. |
| Jaro.GreedyIsStable | src/kgcs/er/features.py:128-141 | The first pass passes over no admissible pair unless one end already has an earlier partner. |
| Jaro.StableAgree | src/kgcs/er/features.py:128-141 | Two matchings that are stable in this sense agree on every pair. |
| Jaro.GreedyFlips | src/kgcs/er/features.py:128-141 | Run from the other string, the pass matches exactly the same positions. |
| Jaro.SimilaritySymmetric | src/kgcs/er/features.py:119-155 | Jaro similarity is symmetric, for all strings. |
| Jaro.OneMismatchIsNone | src/kgcs/er/features.py:144-155 | Strings of the same characters cannot differ in exactly one position. |
| Jaro.SimilarityRange | src/kgcs/er/features.py:119-155 | The score is in [0, 1], and 1 exactly for equal strings. |
| Jaro.PositiveIff | src/kgcs/er/features.py:119-141 | The score is positive exactly when the strings are equal or hold one character at positions whose distance, doubled and with 2 added, is at most the longer length. |
| Jaro.SimilarityOf | src/kgcs/er/features.py:119-155 | From any stable matching the score is the mean of the three shares: of each string matched, and of the matches less half the places where the matched characters differ. |
| Jaro.NeighboursExchanged | src/kgcs/er/features.py:119-155 | Exchanging two neighbours among n >= 4 different characters scores exactly 1 - 1/(3n). |
| Jaro.ScanWindow | src/kgcs/er/features.py:128-141 | The window scan finds the first free position the character may take. |
| Jaro.MatchPass | src/kgcs/er/features.py:126-141 | The flag arrays hold exactly the matched positions, and the counter their number. |
| Jaro.NextFlag | src/kgcs/er/features.py:149-150 | The inner loop of the second pass finds the next flag before the end of the array. |
| Jaro.TranspositionPass | src/kgcs/er/features.py:144-153 | The second pass counts the mismatches of the two flagged texts and never leaves the array. |
| Jaro.JaroSimilarity | src/kgcs/er/features.py:119-155 | The two passes over arrays compute the specified similarity. |
| Jaro.JaroWinklerSimilarity | src/kgcs/er/features.py:158-168 | The prefix loop computes the boosted score. |
| Jaro.BoostedOf | src/kgcs/er/features.py:158-168 | The boost takes away, per character of the common prefix up to the fourth, the given share of what is missing from 1. |
| Jaro.BoostedRange | src/kgcs/er/features.py:158-168 | The boosted score lies between Jaro and 1 for weights up to 1/4, is symmetric, and below 1/4 is 1 exactly for equal strings. |
| Blocking.SharedIff | src/kgcs/er/blocking.py:238-259 | Being together in a block within the cap is having its key in common. |
| Blocking.BuildBuckets | src/kgcs/er/blocking.py:238-242 | The index holds every block's members in order, with repeats. |
| Blocking.AddBlock | src/kgcs/er/blocking.py:256-259 | The two loops over sorted members add every pair of different members once, under the channel's name. |
| Blocking.Block | src/kgcs/er/blocking.py:228-270 | A pair is listed under a name exactly if its keys differ and a channel or producer of that name proposes it: once, smaller key first, in key order, names sorted. |
| Blocking.ProposedIff | src/kgcs/er/blocking.py:228-270 | A pair is proposed under a name exactly when its keys differ and a channel of the name puts both in one block whose filings are within the cap, or a producer of the name yields it. |
| Blocking.ListingIsUnique | src/kgcs/er/blocking.py:265-270 | What is proposed determines the whole list, its order and the names' order included. |
| Blocking.RecallOnlyGrows | src/kgcs/er/blocking.py:238-259 | Without a cap, more entities never take a channel's pair away. |
| Blocking.AddedKeepsPairIff | src/kgcs/er/blocking.py:243-255 | With a cap, two entities keep their pair under a channel exactly when some block they share has room for what is added to it. |
| Blocking.CapCanDrop | src/kgcs/er/blocking.py:243-255 | An instance: one more member takes a block over its cap, and two entities lose their pair. |
| Identity.Evaluate | src/kgcs/er/normalize.py:545-596 | The loop over the namespaces gives their signals in order. |
| Identity.VerdictsIff | src/kgcs/er/normalize.py:545-596 | CONTRADICT is signalled exactly for disjoint values in a namespace that tells these types apart, AGREE exactly for a shared value in one that names both. |
| Identity.SignalIff | src/kgcs/er/normalize.py:545-596 | Which verdict is signalled for a namespace, told from the identifiers of both sides; nothing is signalled for a namespace the rule does not know or one side has no value in. |
| Identity.VerdictsAreSymmetric | src/kgcs/er/normalize.py:545-596 | The signals do not depend on which side is which. |
| Clusters.FirstPair | src/kgcs/er/cluster.py:205-221 | The nested loops report the first bad pair of sorted keys, and none exactly when there is none. |
| Clusters.FirstContradiction | src/kgcs/er/cluster.py:280-298 | The nested loops over the rules report the first contradicting pair. |
| Clusters.StrongContradictionIff | src/kgcs/er/cluster.py:271-298 | With the default rule alone, two members contradict exactly when they hold disjoint values in a namespace that tells their kind of thing apart. |
| Clusters.RunIdentityRules | src/kgcs/er/normalize.py:599-607 | Concatenates the rules' signals in rule order. |
| Clusters.FirstSharedSource | src/kgcs/er/cluster.py:244-260 | The `seen` dictionary reports the first repeated source that is not exempt: the first member to repeat one, with the first member of that source. |
| Clusters.FirstForeign | src/kgcs/er/cluster.py:311-336 | Reports the first member in the given order of another graph or type, and none exactly when there is none. |
| Clusters.OffendersIff | src/kgcs/er/cluster.py:356-381 | The constraint fails exactly for more than one member with a protected one among them, and then names exactly the protected members. |
| Clusters.CheckPairs | src/kgcs/er/cluster.py:417-440 | Counts the pairs with a result and lists the exclusive ones in the order of the loops, each once. |
| Clusters.PairViolationsIff | src/kgcs/er/cluster.py:417-440 | What is listed is exactly the pairs of different positions that a result excludes. |
| Clusters.PairCountIff | src/kgcs/er/cluster.py:417-426 | n members have n(n-1)/2 pairs, and that many results are found exactly when every pair has one. |
| Clusters.Validate | src/kgcs/er/cluster.py:404-456 | A cluster is valid exactly when no member and no pair of members is bad; the violations are the exclusive pairs and then each constraint's offenders, in order; coverage is complete exactly when every pair has a result. |
| ClusterVerdicts.SoundIsMergeable | src/kgcs/er/cluster.py:184-456 | A membership is sound exactly when each member is of the cluster's graph and type, no two have intervals apart, a source in common or telling identifiers apart, no two are excluded by a result, and at most one is protected. |
| ClusterVerdicts.CoveredIsCompared | src/kgcs/er/cluster.py:417-456 | The pair check is complete exactly when each two different members have a result in either order. |
| ClusterVerdicts.ReportedIff | src/kgcs/er/cluster.py:184-456 | Which violations are reported: each excluded pair, the first pair or member in sorted order for each constraint, and all protected members. |
| ClusterVerdicts.ReportedInOrder | src/kgcs/er/cluster.py:404-456 | They come pairs first and then in the order of the constraints, none twice. |
| Clusters.ViolationsAreJustified | src/kgcs/er/cluster.py:404-456 | Every violation names members of the cluster that really break what it says. |
| Clusters.ValidateAddition | src/kgcs/er/cluster.py:458-471 | The verdict with one member more; adding a member never repairs a rejected cluster. |
| ClusterVerdicts.AdditionIsMergeable | src/kgcs/er/cluster.py:458-471 | A member may be added exactly when it may stand with the others. |
| Clusters.SoundIffPairsAre | src/kgcs/er/cluster.py:384-456 | A membership is sound exactly when every choice of one or two of its members is. |
| Clusters.SoundIsHereditary | src/kgcs/er/cluster.py:384-456 | Fewer members of a sound membership are sound. |
| Clusters.OrderDoesNotMatter | src/kgcs/er/cluster.py:384-456 | The order of members and their repeats do not change the verdict. |
| Survivor.BestOf | src/kgcs/er/cluster.py:540-552 | The running best beats every other member: rank first, then the smaller key. |
| Survivor.BeatsIff | src/kgcs/er/cluster.py:504-552 | Which of two members survives: higher reliability, then more identifier values, then the smaller key. |
| Survivor.UnknownBeatsIff | src/kgcs/er/cluster.py:504-552 | A member without an entity has no reliability and no values, so against it any of these wins, and else the smaller key. |
| Survivor.SelectSurvivor | src/kgcs/er/cluster.py:504-552 | There is a survivor for every membership but the empty one, and it beats every other member. |
| Survivor.SurvivorIsUnique | src/kgcs/er/cluster.py:504-552 | There is only one, whatever the order and repeats. |
| Survivor.SurvivorComposes | src/kgcs/er/cluster.py:504-552 | The survivor of two memberships together is the survivor of their survivors. |
| CanonicalJson.PrintInjective | src/kgcs/records.py:267-284 | Canonical JSON is uniquely readable: equal texts, whatever allowed text follows, come from equal values. |
| CanonicalJson.TailReadsBack | src/kgcs/records.py:267-284 | A quoted string reads back by the escapes of section 7 of RFC 8259, surrogate pairs included, up to its closing quote and whatever follows. |
| CanonicalJson.EscapeShape | src/kgcs/records.py:267-284 | Printable ASCII stands for itself but for quote and backslash, exactly seven characters have a short escape, and the text is ASCII with lower-case digits. |
| CanonicalJson.ScalarIs | src/kgcs/records.py:267-284 | The text of null, booleans, numbers and strings: an integer's digits spell it after the sign, a string's text reads back. |
| CanonicalJson.ListIs | src/kgcs/records.py:267-284 | A list is its items' texts between brackets, separated by commas and nothing else. |
| CanonicalJson.ObjectIs | src/kgcs/records.py:267-284 | An object is its fields in ascending order of the keys, separated by commas and with a colon after each key. |
| Records.RecordSeedIff | src/kgcs/records.py:163-211 | Two seeds are equal exactly for the same fact, object, object identity, valid period, origin and ordered evidence. |
| Records.SeedIs | src/kgcs/records.py:163-211 | The layout of a seed: fact, tag, object, identity, period, origin and evidence, in that order. |
| Records.ValueJsonIff | src/kgcs/records.py:267-293 | Different objects render alike exactly when one is a date and the other the list of the tag and its text. |
| Records.FactKeyIff | src/kgcs/records.py:144-161 | Two slots share a fact key exactly when they are the same slot, unless the digest collides. |
| Records.FactKeyIs | src/kgcs/records.py:144-161 | A fact key is the digest of subject and predicate with a NUL between, behind its prefix. |
| Ids.EncodeBase32 | src/kgcs/ids.py:42-49 | The in-place loop spells the number in the alphabet, most significant symbol first: all of it where it fits, its low digits where it does not. |
| Ids.Base32RoundTrip | src/kgcs/ids.py:42-49 | A number that fits is read back from its symbols. |
| Ids.TokenSpellsDigest | src/kgcs/ids.py:52-55 | A 16-byte digest's token has 26 symbols, starts with at most '7', and spells the digest. |
| Ids.DeriveToken | src/kgcs/ids.py:52-55 | The loop on a digest yields its token, which spells it. |
| Ids.IdFactory.IdsAreMarked | src/kgcs/ids.py:123-130 | Every id is the prefix of its kind and the 26 symbols that spell the seed's digest. |
| Ids.TokenKeepsDigest | src/kgcs/ids.py:52-55 | Tokens are equal exactly for equal digests. |
| Evidence.EscapeIsOnePass | src/kgcs/advisers/evidence.py:236-248 | The four chained replacements are one pass over the characters. |
| Evidence.EscapeReadsBack | src/kgcs/advisers/evidence.py:236-248 | Escaped text between quotes is read back exactly, whatever follows the closing quote. |
| Evidence.EscapeInjective | src/kgcs/advisers/evidence.py:236-248 | Texts escape alike exactly when they are equal. |
| Evidence.LineIsOneLineIff | src/kgcs/advisers/evidence.py:170-219 | A citation takes one line, exactly unless it shows an unescaped payload hash with a line break. |
| Evidence.LineText | src/kgcs/advisers/evidence.py:170-219 | The text of every line, for an unknown id, a failed lookup, and an absent, failing or present record. |
| Evidence.CutIff | src/kgcs/advisers/evidence.py:170-219 | A line is cut exactly when the text it shows is longer than the budget. |
| Evidence.RenderEvidence | src/kgcs/advisers/evidence.py:121-167 | One line per cited id in citation order, with the two id lists and the truncation flag; a budget below one is refused. |
| Evidence.CitationsArePartitioned | src/kgcs/advisers/evidence.py:139-167 | Rendered and unresolved ids partition the citations, each with its repeats. |
| Evidence.OneLinePerCitation | src/kgcs/advisers/base.py:318-335 | Joined with newlines and split again, the block gives back one line per citation in order. |
| Evidence.PromptIs | src/kgcs/advisers/base.py:313-335 | The prompt is its lines, the evidence between head and tail, with a newline between two. |
| Evidence.HeadIs | src/kgcs/advisers/base.py:313-335 | The head: the instruction, the notice exactly where there is evidence text, kind, subject, the other side where given, and the cited ids. |
| Evidence.TailIs | src/kgcs/advisers/base.py:313-335 | The tail: the context lines in order and then the allowed recommendations, sorted. |
| Evidence.PromptKeepsCitations | src/kgcs/advisers/base.py:318-335 | In the whole prompt, whatever its other lines hold, the evidence block stays one line per citation in citation order, in one piece. |
| ReviewQueue.LoadOfSave | src/kgcs/review/queue.py:134-160 | What the JSON store saves is what it loads: items, their order, and every decision. |
| ReviewQueue.DocumentIs | src/kgcs/review/queue.py:134-160 | What the document holds: the pending items in order, and each item's decisions in order. |
| ReviewQueue.CorruptIff | src/kgcs/review/queue.py:134-147 | A file is corrupt exactly when it is there and is no object, or its pending items or decisions are no lists of entries. |
| ReviewQueue.LoadedIsDistinct | src/kgcs/review/queue.py:134-147 | Whatever document is read, no id is pending twice. |
| ReviewQueue.JsonFileReviewStore.Load | src/kgcs/review/queue.py:134-147 | A missing file is an empty queue, a corrupt one is refused, anything else is read as `LoadDoc` says; a failing file system raises. |
| ReviewQueue.PersistentReviewQueue.Perform | src/kgcs/review/queue.py:201-243 | An operation that returns has changed the persisted snapshot by exactly itself; one that raises has changed nothing, and asks for a retry exactly if its load, or else its save, met an operating-system error. |
| ReviewQueue.PersistentReviewQueue.Pending | src/kgcs/review/queue.py:208-236 | A prefix of the pending items: the first `limit` of them, or all where there are fewer; for a negative limit all but the last `-limit`. A load that fails says whether to retry. |
| ReviewQueue.FileSimulatesMemory | src/kgcs/review/queue.py:100-160 | After any run with any failures a reopened file gives the snapshot the in-memory store holds. |
| ReviewQueue.PersistedIsFold | src/kgcs/review/queue.py:201-224 | What is persisted is the fold of the operations that returned normally. |
| ReviewQueue.HistoryIsEveryDecision | src/kgcs/review/queue.py:213-229 | An item's history is exactly the decisions made for it, in order. |
| ReviewQueue.PendingIsLastEnqueued | src/kgcs/review/queue.py:201-224 | An id is pending exactly when it was enqueued and not resolved since, with its last item. |
| ReviewQueue.PendingInOrderOfArrival | src/kgcs/review/queue.py:201-211 | The pending order is the order of becoming pending; enqueuing again keeps the place. |
| Backlog.GroupsAddUp | src/kgcs/review/backlog.py:304-317 | Over the sources, the counts of any kind of item add up to its count over all items. |
| Backlog.BacklogIsConserved | src/kgcs/review/backlog.py:170-202 | The sources' depths and breaches add up to the totals. |
| Backlog.SourceBacklogs | src/kgcs/review/backlog.py:304-317 | One summary per source, in order of the sources, of exactly that source's items: depth, oldest age, breaches and counts by priority. |
| BacklogSignals.SummaryIs | src/kgcs/review/backlog.py:304-317 | A source's depth, late items, longest wait and count per priority, told from the queue items and the time. |
| Backlog.CountsAreMultiplicities | src/kgcs/review/backlog.py:338-343 | A value's count is how often it occurs, and only values that occur have one. |
| Backlog.PriorityInversion | src/kgcs/review/backlog.py:284-302 | Reports exactly the breaching items with a healthy item of lower priority, in order. |
| BacklogSignals.InversionIs | src/kgcs/review/backlog.py:284-302 | The starved items, told from the queue items and the time, in queue order. |
| Backlog.OldestIsMax | src/kgcs/review/backlog.py:177-177 | The oldest age is the largest there is, 0 for an empty queue. |
| Backlog.Backpressure | src/kgcs/review/backlog.py:204-247 | At most one signal per source, in source order, and exactly those due. |
| BacklogSignals.SignalIff | src/kgcs/review/backlog.py:204-282 | When a source is held back, whether by quarantine or throttling, and what the signal says, told from the queue items and the time. |
| BacklogSignals.BackpressureIs | src/kgcs/review/backlog.py:204-247 | The list has one such signal for every source held back, in order of the sources. |
| Backlog.DeepestIsUnique | src/kgcs/review/backlog.py:226-230 | There is one deepest source, the smallest name on ties. |
| Backlog.DeepestIsSignalled | src/kgcs/review/backlog.py:226-247 | Whenever the total exceeds the exposure bound, the deepest source has exactly one signal. |
| Backlog.QuarantineIff | src/kgcs/review/backlog.py:251-282 | A signal reports its source's depth and breaches, and is a quarantine exactly over the source's own bounds. |
| Sequences.FirstSeenIsOrdered | src/kgcs/recuration/evolution.py:802-810 | De-duplication keeps the order of first occurrence, and so no repeats. |
| Sequences.Dedupe | src/kgcs/recuration/evolution.py:802-810 | The loop with a `seen` set computes it. |

## Left out

- Merge, split, reassign and promote: no store in the repository applies them; only the inverse structure of these operations is modelled (`Compensation.InverseType`).
- The race between the executor's guard check and the store's apply: an execution is one step.
- A store without publisher, reader or audit sink: the reader is optional in the model, the publisher and the sink are always there.
- The SQLite sinks, the file system behind the JSON review store (a save replaces the document or leaves it), the JSON parser, and the language-model clients.
- SHA-256 and random ids: a digest is a parameter.
- The concrete blocking channels, name normalisation, and the float features (embedding, distance, rarity, best name similarity): a channel is any function to block keys.
- Cluster validators wired with other constraints than the default ones.
- `ErResolutionPolicy` and `CurationOrchestrator`: their gates are a case analysis.
- Backlog metrics by entity type and cluster, starving items and the assembly of the metrics record: further counts of the same kind.
- Ontology transitions, trigger queue, dependency index, profiles and audit record assembly: easy members.
- Evolution.PlanSupersessionIff: assumes that the fact-key digest does not confuse the two slots, and subjects without NUL.
- Planning.PlansRollBackIff: asks for a reader or for a plan that mints nothing, since an executor without a reader does not check absence guards.
- Jaro.JaroSimilarity: exact arithmetic; floating-point rounding is not modelled.
- Backlog.OldestIsMax: ages are exact microseconds, not hours as floats.
