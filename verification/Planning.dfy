/** The admission planner (src/kgcs/planner.py): resolved candidates compiled into one guarded
    plan. */
module Planning {
  import opened Wrappers
  import opened CanonicalJson
  import opened Contracts
  import opened Records
  import opened Ids
  import opened Numerals
  import opened Sequences
  import opened GraphStore
  import opened Execution
  import opened Compensation
  import opened Rollback
  import opened Runs

  /** The id factory, the digest behind fact keys, and the versions to stamp. */
  datatype Planner = Planner(ids: IdFactory, digest: string -> string, snapshotVersion: string, policyVersion: string)

  datatype Claim =
    | EntityClaim(entityType: string, displayName: string)
    | AttributeClaim(attribute: string, value: ObjectValue, period: Option<ValidPeriod>)
    | RelationClaim(relationType: string, target: Option<Id>, period: Option<ValidPeriod>)
    | OtherClaim

  datatype Candidate = Candidate(
    candidateId: Id,
    graphId: Id,
    createdAt: Instant,
    producer: string,
    source: string,
    locator: string,
    evidence: seq<EvidenceRef>,
    traceId: string,
    claim: Claim)

  /** What resolution decided: whether the candidate may be applied without review, and the
      identity it is about. */
  datatype Resolution = Resolution(automatic: bool, identity: Option<Id>, createNew: bool)

  datatype Item = Item(candidate: Candidate, resolution: Resolution)

  datatype Planned = Planned(operation: Operation, item: Item)

  /* ---------- operations ---------- */

  /** The status change that takes an attach back: retired at the instant it was recorded, with
      no successor. */
  function RetractInverse(a: Assertion): Payload {
    StatusChange(a.assertionId, a.subject, Some(SUPERSEDED), Some(a.recordedAt), None)
  }

  function RevokeInverse(identity: Id, operationId: Id): Payload {
    IdentityRef(identity, "rollback of CREATE_IDENTITY " + operationId)
  }

  function ContentOf(c: Candidate, value: ObjectValue, identity: Option<Id>, period: Option<ValidPeriod>): Content {
    Content(value, identity, period, c.evidence, Some(Records.Provenance(c.source, Some(c.locator), c.producer)))
  }

  /** The record a claim about (subject, attribute) makes.  Its id is minted from the content
      as claimed; an open period is stored where none was given. */
  function RecordOf(p: Planner, c: Candidate, subject: Id, attribute: string, content: Content): Result<Assertion,
                    SeedError> {
    match RecordSeed(FactKey(p.digest, subject, attribute), content)
    case Err(e) => Err(e)
    case Ok(seed) =>
      Ok(Assertion(
        p.ids.AssertionId(seed), subject, attribute, content.(validPeriod := Some(PeriodOf(content))), ACTIVE,
        c.createdAt, None, None, [c.candidateId], c.producer, c.traceId, 0))
  }

  function AttachOf(p: Planner, c: Candidate, a: Assertion): Operation {
    Operation(p.ids.OperationId(c.candidateId + ":ATTACH_ASSERTION"), ATTACH_ASSERTION, AssertionDump(Dumped(a)),
              Inverse(RetractInverse(a), Lineage.Provenance(map["candidate_id" := c.candidateId])))
  }

  function CreateOf(p: Planner, c: Candidate, identity: Id): Operation
    requires c.claim.EntityClaim?
  {
    var operationId := p.ids.OperationId(c.candidateId + ":CREATE_IDENTITY");
    Operation(operationId, CREATE_IDENTITY,
              EntityDump(Entity(identity, c.claim.entityType, c.claim.displayName, ACTIVE, c.createdAt, 0)),
              Inverse(RevokeInverse(identity, operationId),
                      Lineage.Provenance(map["identity_id" := identity, "candidate_id" := c.candidateId])))
  }

  function AttachFor(p: Planner, c: Candidate, subject: Id, attribute: string,
                     content: Content): Result<Option<Operation>, SeedError> {
    match RecordOf(p, c, subject, attribute, content)
    case Err(e) => Err(e)
    case Ok(a) => Ok(Some(AttachOf(p, c, a)))
  }

  /** The one operation an item asks for; none where it is deferred. */
  function OperationOf(p: Planner, item: Item): Result<Option<Operation>, SeedError> {
    var c, r := item.candidate, item.resolution;
    if !r.automatic || r.identity.None? then Ok(None)
    else
      match c.claim
      case EntityClaim(_, _) => Ok(if r.createNew then Some(CreateOf(p, c, r.identity.value)) else None)
      case AttributeClaim(attribute, value, period) =>
        if value == Native(Null) then Ok(None)
        else AttachFor(p, c, r.identity.value, attribute, ContentOf(c, value, None, period))
      case RelationClaim(relationType, object_, period) =>
        if object_.None? then Ok(None)
        else AttachFor(p, c, r.identity.value, relationType, ContentOf(c, Native(Null), object_, period))
      case OtherClaim => Ok(None)
  }

  /** The planned operations in input order; the first value no seed can hold stops it. */
  function PlannedOf(p: Planner, items: seq<Item>): Result<seq<Planned>, SeedError> {
    if items == [] then Ok([])
    else
      match PlannedOf(p, items[..|items| - 1])
      case Err(e) => Err(e)
      case Ok(before) =>
        match OperationOf(p, items[|items| - 1])
        case Err(e) => Err(e)
        case Ok(None) => Ok(before)
        case Ok(Some(op)) => Ok(before + [Planned(op, items[|items| - 1])])
  }

  /* ---------- the plan ---------- */

  function EntityGuard(identity: Id): Precondition { Precondition(EntityVersion, identity, "0") }

  function GuardOf(q: Planned): seq<Precondition> {
    match q.operation.opType
    case CREATE_IDENTITY =>
      if q.item.resolution.identity.Some? then [EntityGuard(q.item.resolution.identity.value)] else []
    case ATTACH_ASSERTION =>
      if q.operation.payload.AssertionDump?
      then [AbsentGuard(q.operation.payload.assertion.subject, q.operation.payload.assertion.assertionId)]
      else []
    case _ => []
  }

  function GuardsOf(planned: seq<Planned>): seq<Precondition> {
    if planned == [] then [] else GuardsOf(planned[..|planned| - 1]) + GuardOf(planned[|planned| - 1])
  }

  function OperationsOf(planned: seq<Planned>): seq<Operation> {
    seq(|planned|, i requires 0 <= i < |planned| => planned[i].operation)
  }

  function CandidateIds(planned: seq<Planned>): seq<Id> {
    seq(|planned|, i requires 0 <= i < |planned| => planned[i].item.candidate.candidateId)
  }

  function RefIds(refs: seq<EvidenceRef>): seq<Id> {
    seq(|refs|, i requires 0 <= i < |refs| => refs[i].evidenceId)
  }

  function AllRefIds(planned: seq<Planned>): seq<Id> {
    if planned == [] then []
    else AllRefIds(planned[..|planned| - 1]) + RefIds(planned[|planned| - 1].item.candidate.evidence)
  }

  function PlanSeed(p: Planner, ids: seq<Id>): string {
    Joined(ids) + "@" + p.snapshotVersion + "#" + p.policyVersion
  }

  function Joined(ids: seq<Id>): string {
    if ids == [] then "" else if |ids| == 1 then ids[0] else ids[0] + "|" + Joined(ids[1..])
  }

  /** No plan where nothing is planned. */
  function PlanOf(p: Planner, items: seq<Item>): Result<Option<Plan>, SeedError> {
    match PlannedOf(p, items)
    case Err(e) => Err(e)
    case Ok(planned) =>
      if planned == [] then Ok(None)
      else
        Ok(Some(Plan(
          p.ids.PlanId(PlanSeed(p, CandidateIds(planned))), CandidateIds(planned), p.snapshotVersion,
          OperationsOf(planned),
          [Precondition(SnapshotVersion, planned[0].item.candidate.graphId, p.snapshotVersion)] + GuardsOf(planned),
          FirstSeen(AllRefIds(planned)), p.policyVersion)))
  }

  /* ---------- the loops ---------- */

  method Preconditions(p: Planner, planned: seq<Planned>, graphId: Id) returns (guards: seq<Precondition>)
    ensures guards == [Precondition(SnapshotVersion, graphId, p.snapshotVersion)] + GuardsOf(planned)
  {
    var snapshot := [Precondition(SnapshotVersion, graphId, p.snapshotVersion)];
    guards := snapshot;
    for i := 0 to |planned|
      invariant guards == snapshot + GuardsOf(planned[..i])
    {
      Regrouped(snapshot, GuardsOf(planned[..i]), GuardOf(planned[i]));
      assert planned[..i + 1][..i] == planned[..i];
      guards := guards + GuardOf(planned[i]);
    }
    assert planned[..|planned|] == planned;
  }

  method EvidenceIds(planned: seq<Planned>) returns (ordered: seq<Id>)
    ensures ordered == FirstSeen(AllRefIds(planned))
  {
    var all: seq<Id> := [];
    for i := 0 to |planned|
      invariant all == AllRefIds(planned[..i])
    {
      assert planned[..i + 1][..i] == planned[..i];
      all := all + RefIds(planned[i].item.candidate.evidence);
    }
    assert planned[..|planned|] == planned;
    ordered := Dedupe(all);
  }

  method MakePlan(p: Planner, items: seq<Item>) returns (r: Result<Option<Plan>, SeedError>)
    ensures r == PlanOf(p, items)
  {
    var planned: seq<Planned> := [];
    for i := 0 to |items|
      invariant PlannedOf(p, items[..i]) == Ok(planned)
    {
      assert items[..i + 1][..i] == items[..i];
      var operation := OperationOf(p, items[i]);
      match operation
      case Err(e) =>
        FirstErrorStops(p, items, i + 1, e);
        return Err(e);
      case Ok(None) =>
      case Ok(Some(op)) => planned := planned + [Planned(op, items[i])];
    }
    assert items[..|items|] == items;
    if planned == [] {
      return Ok(None);
    }
    var guards := Preconditions(p, planned, planned[0].item.candidate.graphId);
    var evidence := EvidenceIds(planned);
    r := Ok(Some(Plan(p.ids.PlanId(PlanSeed(p, CandidateIds(planned))), CandidateIds(planned), p.snapshotVersion,
                      OperationsOf(planned), guards, evidence, p.policyVersion)));
  }

  lemma {:induction false} FirstErrorStops(p: Planner, items: seq<Item>, n: nat, e: SeedError)
    requires n <= |items| && PlannedOf(p, items[..n]) == Err(e)
    ensures PlannedOf(p, items) == Err(e)
    decreases |items| - n
  {
    if n < |items| {
      assert items[..n + 1][..n] == items[..n];
      FirstErrorStops(p, items, n + 1, e);
    } else {
      assert items[..n] == items;
    }
  }

  /* ---------- what every plan has ---------- */

  /** What a planned operation looks like. */
  predicate WellPlanned(q: Planned) {
    && q.operation.reversal.Inverse?
    && match q.operation.opType
       case CREATE_IDENTITY =>
         && q.operation.payload.EntityDump? && q.item.resolution.identity == Some(q.operation.payload.entity.identityId)
         && q.operation.payload.entity.status == ACTIVE
         && NamedIdentity(q.operation.reversal.payload) == Some(q.operation.payload.entity.identityId)
       case ATTACH_ASSERTION =>
         && q.operation.payload.AssertionDump? && q.operation.payload.assertion.status == ACTIVE
         && q.operation.reversal.payload == RetractInverse(q.operation.payload.assertion)
       case _ => false
  }

  lemma AttachIsWellPlanned(p: Planner, item: Item, subject: Id, attribute: string, content: Content)
    ensures var r := AttachFor(p, item.candidate, subject, attribute, content);
            r.Ok? ==> r.value.Some? && WellPlanned(Planned(r.value.value, item))
  {
  }

  lemma OperationIsWellPlanned(p: Planner, item: Item)
    ensures var r := OperationOf(p, item); r.Ok? && r.value.Some? ==> WellPlanned(Planned(r.value.value, item))
  {
    var c, identity := item.candidate, item.resolution.identity;
    if identity.Some? {
      match c.claim
      case AttributeClaim(attribute, value, period) =>
        AttachIsWellPlanned(p, item, identity.value, attribute, ContentOf(c, value, None, period));
      case RelationClaim(relationType, object_, period) =>
        AttachIsWellPlanned(p, item, identity.value, relationType, ContentOf(c, Native(Null), object_, period));
      case _ =>
    }
  }

  lemma {:induction false} AllWellPlanned(p: Planner, items: seq<Item>)
    requires PlannedOf(p, items).Ok?
    ensures forall q <- PlannedOf(p, items).value :: WellPlanned(q)
  {
    if items != [] {
      AllWellPlanned(p, items[..|items| - 1]);
      OperationIsWellPlanned(p, items[|items| - 1]);
    }
  }

  lemma {:induction false} GuardIsThere(planned: seq<Planned>, k: nat)
    requires k < |planned|
    ensures forall g <- GuardOf(planned[k]) :: g in GuardsOf(planned)
  {
    if k < |planned| - 1 {
      GuardIsThere(planned[..|planned| - 1], k);
    }
  }

  /** Every plan has its snapshot guard, a guard of absence for everything it attaches, and a
      guard of non-existence for every identity it creates. */
  lemma PlansAreGuarded(p: Planner, items: seq<Item>)
    requires PlanOf(p, items).Ok? && PlanOf(p, items).value.Some?
    ensures var plan := PlanOf(p, items).value.value;
            && plan.WellFormed() && plan.operations != [] && GuardedAt(plan, p.snapshotVersion) && GuardsAttaches(plan)
            && forall op <- plan.operations :: op.opType == CREATE_IDENTITY ==>
                 op.payload.EntityDump? && EntityGuard(op.payload.entity.identityId) in plan.preconditions
  {
    var plan, planned := PlanOf(p, items).value.value, PlannedOf(p, items).value;
    AllWellPlanned(p, items);
    assert plan.preconditions[0] in plan.preconditions;
    forall m <- Minted(plan.operations) ensures AbsentGuard(m.0, m.1) in plan.preconditions {
      MintedComesFrom(plan.operations, m);
      var k :| 0 <= k < |plan.operations| && MintedBy(plan.operations[k]) == [m];
      GuardIsThere(planned, k);
      assert AbsentGuard(m.0, m.1) in GuardOf(planned[k]);
    }
    forall op <- plan.operations | op.opType == CREATE_IDENTITY
      ensures op.payload.EntityDump? && EntityGuard(op.payload.entity.identityId) in plan.preconditions
    {
      var k :| 0 <= k < |plan.operations| && plan.operations[k] == op;
      assert planned[k] in planned;
      GuardIsThere(planned, k);
      assert EntityGuard(op.payload.entity.identityId) in GuardOf(planned[k]);
    }
  }

  /** Whether an item asks for an operation. */
  function Asks(p: Planner): Item -> bool { item => OperationOf(p, item).Ok? && OperationOf(p, item).value.Some? }

  function ItemsOf(planned: seq<Planned>): seq<Item> {
    seq(|planned|, i requires 0 <= i < |planned| => planned[i].item)
  }

  /** Planning keeps input order: one operation for each item that asks for one, its own.  It
      is refused exactly when some item's value cannot be rendered. */
  lemma {:induction false} PlanningKeepsOrder(p: Planner, items: seq<Item>)
    ensures PlannedOf(p, items).Ok? <==> forall item <- items :: OperationOf(p, item).Ok?
    ensures PlannedOf(p, items).Ok? ==>
              && ItemsOf(PlannedOf(p, items).value) == Filter(items, Asks(p))
              && forall q <- PlannedOf(p, items).value :: OperationOf(p, q.item) == Ok(Some(q.operation))
  {
    if items != [] {
      var n := |items| - 1;
      PlanningKeepsOrder(p, items[..n]);
      assert items == items[..n] + [items[n]];
    }
  }

  /** After the snapshot guard comes one guard per operation, in operation order. */
  lemma GuardsInOrder(planned: seq<Planned>)
    requires forall q <- planned :: WellPlanned(q)
    ensures |GuardsOf(planned)| == |planned|
    ensures forall k :: 0 <= k < |planned| ==> GuardOf(planned[k]) == [GuardsOf(planned)[k]]
  {
    forall q <- planned ensures |GuardOf(q)| == 1 { OneGuard(q); }
    GuardsLineUp(planned);
  }

  lemma {:induction false} GuardsLineUp(planned: seq<Planned>)
    requires forall q <- planned :: |GuardOf(q)| == 1
    ensures |GuardsOf(planned)| == |planned|
    ensures forall k :: 0 <= k < |planned| ==> GuardOf(planned[k]) == [GuardsOf(planned)[k]]
  {
    if planned != [] {
      var n := |planned| - 1;
      assert planned[n] in planned && forall q <- planned[..n] :: q in planned;
      GuardsLineUp(planned[..n]);
      var rest, last := GuardsOf(planned[..n]), GuardOf(planned[n]);
      assert GuardsOf(planned) == rest + last;
      forall k | 0 <= k < n + 1 ensures GuardOf(planned[k]) == [(rest + last)[k]] {
        if k < n { assert planned[..n][k] == planned[k] && (rest + last)[k] == rest[k]; }
      }
    }
  }

  lemma OneGuard(q: Planned)
    requires WellPlanned(q)
    ensures |GuardOf(q)| == 1
  {
  }

  /** What a planned operation of a plan looks like, seen on its own. */
  predicate WellShaped(op: Operation) {
    && op.reversal.Inverse?
    && match op.opType
       case CREATE_IDENTITY =>
         op.payload.EntityDump? && op.payload.entity.status == ACTIVE
         && NamedIdentity(op.reversal.payload) == Some(op.payload.entity.identityId)
       case ATTACH_ASSERTION =>
         op.payload.AssertionDump? && op.payload.assertion.status == ACTIVE
         && op.reversal.payload == RetractInverse(op.payload.assertion)
       case _ => false
  }

  lemma PlansAreWellShaped(p: Planner, items: seq<Item>)
    requires PlanOf(p, items).Ok? && PlanOf(p, items).value.Some?
    ensures forall op <- PlanOf(p, items).value.value.operations :: WellShaped(op)
  {
    var ops, planned := PlanOf(p, items).value.value.operations, PlannedOf(p, items).value;
    AllWellPlanned(p, items);
    forall op <- ops ensures WellShaped(op) {
      var k :| 0 <= k < |ops| && ops[k] == op;
      assert planned[k] in planned && WellPlanned(planned[k]);
    }
  }

  lemma UndoingAttachesMintsNothing(qs: seq<Operation>, ops: seq<Operation>, allowLegacy: bool)
    requires UndoesAll(qs, ops, allowLegacy) && forall op <- ops :: op.opType != RETRACT_ASSERTION
    ensures Minted(qs) == []
  {
    forall k | 0 <= k < |qs| ensures MintedBy(qs[k]) == [] {
      assert Undoes(qs[k], ops[|ops| - 1 - k], allowLegacy) && ops[|ops| - 1 - k] in ops;
    }
    if Minted(qs) != [] { MintedComesFrom(qs, Minted(qs)[0]); }
  }

  lemma PlanIsFullyCompensated(p: Planner, items: seq<Item>, settings: Settings, epoch: nat)
    requires PlanOf(p, items).Ok? && PlanOf(p, items).value.Some?
    ensures var plan := PlanOf(p, items).value.value;
            var comp := FullCompensation(settings, plan, epoch);
            comp.Some? && UndoesAll(comp.value.operations, plan.operations, settings.allowLegacy)
  {
    var plan := PlanOf(p, items).value.value;
    PlansAreWellShaped(p, items);
    PlansAreGuarded(p, items);
    forall op <- plan.operations ensures Compensable(op) && InversePayload(op, settings.allowLegacy).Ok? {
      assert WellShaped(op);
    }
    FullyCompensated(settings, plan, epoch);
  }

  /** Every plan compensates in full, and no compensation of one mints a record. */
  lemma PlansCompensateInFull(p: Planner, items: seq<Item>, settings: Settings, epoch: nat)
    requires PlanOf(p, items).Ok? && PlanOf(p, items).value.Some?
    ensures var comp := FullCompensation(settings, PlanOf(p, items).value.value, epoch);
            comp.Some? && Minted(comp.value.operations) == []
  {
    var plan := PlanOf(p, items).value.value;
    PlansAreWellShaped(p, items);
    PlanIsFullyCompensated(p, items, settings, epoch);
    forall op <- plan.operations ensures op.opType != RETRACT_ASSERTION { assert WellShaped(op); }
    UndoingAttachesMintsNothing(FullCompensation(settings, plan, epoch).value.operations, plan.operations,
                                settings.allowLegacy);
  }

  /* ---------- what the graph keeps of a plan ---------- */

  lemma {:induction false} MintedIsRecorded(adapter: Adapter, t: Tables, ops: seq<Operation>, newEpoch: nat,
                                            m: (Id, Id))
    requires m in Minted(ops) && RunOps(adapter, t, ops, newEpoch).Ran?
    ensures Recorded(RunOps(adapter, t, ops, newEpoch).tables.rows, m.0, m.1)
    decreases ops
  {
    var next := ApplyOp(adapter, t, ops[0], newEpoch).tables;
    if m in Minted(ops[1..]) {
      MintedIsRecorded(adapter, next, ops[1..], newEpoch, m);
    } else {
      AttachedIsRecorded(adapter, t, ops[0], newEpoch, m);
      RunOpsKeepsRows(adapter, next, ops[1..], newEpoch);
      RecordedIsKept(next.rows, RunOps(adapter, t, ops, newEpoch).tables.rows, m.0, m.1);
    }
  }

  lemma AttachedIsRecorded(adapter: Adapter, t: Tables, op: Operation, newEpoch: nat, m: (Id, Id))
    requires m in MintedBy(op) && ApplyOp(adapter, t, op, newEpoch).Ran?
    ensures Recorded(ApplyOp(adapter, t, op, newEpoch).tables.rows, m.0, m.1)
  {
    var a, rows := op.payload.assertion.(epoch := newEpoch), ApplyOp(adapter, t, op, newEpoch).tables.rows;
    var i := RowOf(t.rows, a.subject, a.assertionId);
    assert rows[if adapter.upserts && i < |t.rows| then i else |t.rows|] == a;
  }

  lemma RecordedIsKept(rows: seq<Assertion>, later: seq<Assertion>, subject: Id, id: Id)
    requires RowsKept(rows, later) && Recorded(rows, subject, id)
    ensures Recorded(later, subject, id)
  {
    var a :| a in rows && a.subject == subject && a.assertionId == id;
    var i :| 0 <= i < |rows| && rows[i] == a;
    assert later[i] in later;
  }

  lemma CommitLeavesRecorded(cfg: Config, w: World, plan: Plan, comp: bool, m: (Id, Id))
    requires Commits(cfg, w.graph, plan) && m in Minted(plan.operations)
    ensures Recorded(Execute(cfg, w, plan, comp).graph.tables.rows, m.0, m.1)
  {
    ExecuteGraph(cfg, w, plan, comp);
    CommitFacts(cfg, w.graph, plan, comp);
    MintedIsRecorded(cfg.adapter, w.graph.tables, plan.operations, w.graph.epoch + 1, m);
  }

  /** Once a record has been committed, by whatever plan, the graph holds it ever after, and a
      plan that guards its attaches and mints it again, replayed or planned afresh at whatever
      epoch, commits only over rows that are all revoked: that is where the guard does not look. */
  lemma ReplannedSeesOnlyRevoked(cfg: Config, ws: seq<World>, calls: seq<Call>, i: nat, j: nat, m: (Id, Id))
    requires cfg.hasReader && IsRun(cfg, ws, calls) && i < j < |calls|
    requires Committing(cfg, ws, calls)[i] && m in Minted(calls[i].plan.operations)
    requires GuardsAttaches(calls[j].plan) && m in Minted(calls[j].plan.operations)
    ensures Recorded(ws[j].graph.tables.rows, m.0, m.1)
    ensures Committing(cfg, ws, calls)[j] ==> !Present(ws[j].graph.tables.rows, m.0, m.1)
  {
    assert ws[i + 1] == Execute(cfg, ws[i], calls[i].plan, calls[i].comp);
    CommitLeavesRecorded(cfg, ws[i], calls[i].plan, calls[i].comp, m);
    RunAdvances(cfg, ws, calls, i + 1, j);
    RecordedIsKept(ws[i + 1].graph.tables.rows, ws[j].graph.tables.rows, m.0, m.1);
    if Committing(cfg, ws, calls)[j] { GuardedCommit(cfg, ws[j].graph, calls[j].plan); }
  }

  /** So where no record is ever attached as revoked, no plan that guards its attaches, as all
      planned ones do, commits a committed record again, on a store that appends either. */
  lemma ReplannedNeverCommits(cfg: Config, ws: seq<World>, calls: seq<Call>, i: nat, j: nat, m: (Id, Id))
    requires cfg.hasReader && IsRun(cfg, ws, calls) && i < j < |calls|
    requires NoneRevoked(ws[0].graph.tables.rows) && forall call <- calls :: AttachesNoneRevoked(call.plan)
    requires Committing(cfg, ws, calls)[i] && m in Minted(calls[i].plan.operations)
    requires GuardsAttaches(calls[j].plan) && m in Minted(calls[j].plan.operations)
    ensures !Committing(cfg, ws, calls)[j]
  {
    ReplannedSeesOnlyRevoked(cfg, ws, calls, i, j, m);
    NoneRevokedThroughout(cfg, ws, calls, j);
    RecordedIff(ws[j].graph.tables.rows, m.0, m.1);
  }

  /* ---------- runs of planned plans ---------- */

  /** Where a plan of a run comes from: the planner, or the full compensation of its plan. */
  datatype Origin =
    | Direct(p: Planner, items: seq<Item>)
    | Undoing(settings: Settings, p: Planner, items: seq<Item>, epoch: nat)

  predicate ComesFrom(plan: Plan, o: Origin) {
    PlanOf(o.p, o.items).Ok? &&
    match o
    case Direct(p, items) => PlanOf(p, items).value == Some(plan)
    case Undoing(settings, p, items, epoch) =>
      PlanOf(p, items).value.Some? && FullCompensation(settings, PlanOf(p, items).value.value, epoch) == Some(plan)
  }

  /** Planned plans and their compensations guard what they attach and attach nothing as
      revoked. */
  lemma OriginIsSafe(plan: Plan, o: Origin)
    requires ComesFrom(plan, o)
    ensures GuardsAttaches(plan) && AttachesNoneRevoked(plan)
  {
    match o
    case Direct(p, items) =>
      PlansAreGuarded(p, items);
      PlansAreWellShaped(p, items);
      forall op <- plan.operations | op.opType == ATTACH_ASSERTION && op.payload.AssertionDump?
        ensures op.payload.assertion.status != REVOKED
      {
        assert WellShaped(op);
      }
    case Undoing(settings, p, items, epoch) =>
      PlansCompensateInFull(p, items, settings, epoch);
      MintingNothing(plan.operations);
  }

  lemma {:induction false} MintingNothing(ops: seq<Operation>)
    requires Minted(ops) == []
    ensures forall op <- ops :: MintedBy(op) == []
  {
    if ops != [] { MintingNothing(ops[1..]); }
  }

  /** Over any run of planned plans and their compensations, replayed, interleaved and replanned
      at will, no record ever has two rows: on a store that appends either. */
  lemma PlannedRunsNeverDuplicate(cfg: Config, ws: seq<World>, calls: seq<Call>, origins: seq<Origin>, i: nat)
    requires cfg.hasReader && IsRun(cfg, ws, calls) && i <= |calls|
    requires |origins| == |calls| && forall k :: 0 <= k < |calls| ==> ComesFrom(calls[k].plan, origins[k])
    requires NoDuplicates(ws[0].graph.tables.rows) && NoneRevoked(ws[0].graph.tables.rows)
    ensures NoDuplicates(ws[i].graph.tables.rows) && NoneRevoked(ws[i].graph.tables.rows)
  {
    forall call <- calls ensures GuardsAttaches(call.plan) && AttachesNoneRevoked(call.plan) {
      var k :| 0 <= k < |calls| && calls[k] == call;
      OriginIsSafe(call.plan, origins[k]);
    }
    NeverDuplicates(cfg, ws, calls, i);
    NoneRevokedThroughout(cfg, ws, calls, i);
  }

  /* ---------- plans that roll back ---------- */

  /** Every identity there is has been touched by a commit. */
  predicate EntitiesHaveVersions(g: GraphState) {
    forall id <- g.tables.entities :: VersionOf(g.versions, id) > 0
  }

  lemma {:induction false} VersionsOnlyGrow(versions: map<Id, nat>, ops: seq<Operation>, id: Id)
    ensures VersionOf(Bumped(versions, ops), id) >= VersionOf(versions, id)
    ensures (exists op <- ops :: Touched(op) == id) ==> VersionOf(Bumped(versions, ops), id) > 0
    decreases ops
  {
    if ops != [] {
      var touched := Touched(ops[0]);
      VersionsOnlyGrow(versions[touched := VersionOf(versions, touched) + 1], ops[1..], id);
      assert forall op <- ops :: op == ops[0] || op in ops[1..];
    }
  }

  lemma {:induction false} NewEntitiesAreTouched(adapter: Adapter, t: Tables, ops: seq<Operation>, newEpoch: nat,
                                                 id: Id)
    requires RunOps(adapter, t, ops, newEpoch).Ran?
    requires id in RunOps(adapter, t, ops, newEpoch).tables.entities
    ensures id in t.entities || exists op <- ops :: Touched(op) == id
    decreases ops
  {
    if ops != [] {
      var next := ApplyOp(adapter, t, ops[0], newEpoch).tables;
      NewEntitiesAreTouched(adapter, next, ops[1..], newEpoch, id);
      if id in next.entities && id !in t.entities { assert ops[0] in ops; }
    }
  }

  /** Every attempt keeps it so. */
  lemma AttemptKeepsVersions(cfg: Config, g: GraphState, plan: Plan, comp: bool)
    requires EntitiesHaveVersions(g)
    ensures EntitiesHaveVersions(Attempt(cfg, g, plan, comp).0)
  {
    AttemptCases(cfg, g, plan, comp);
    if Commits(cfg, g, plan) {
      CommitFacts(cfg, g, plan, comp);
      ApplyCases(cfg.adapter, g, plan.operations, plan.preconditions);
      var next := Attempt(cfg, g, plan, comp).0;
      forall id <- next.tables.entities ensures VersionOf(next.versions, id) > 0 {
        NewEntitiesAreTouched(cfg.adapter, g.tables, plan.operations, g.epoch + 1, id);
        VersionsOnlyGrow(g.versions, plan.operations, id);
      }
    }
  }

  /** The table holds no record with the id that the operation attaches. */
  predicate Clear(t: Tables, op: Operation) {
    op.opType == ATTACH_ASSERTION && op.payload.AssertionDump? ==>
      RowWithId(t.rows, op.payload.assertion.assertionId) == |t.rows|
  }

  /** The two operations attach different records. */
  predicate Apart(a: Operation, b: Operation) {
    a.opType == b.opType == ATTACH_ASSERTION && a.payload.AssertionDump? && b.payload.AssertionDump? ==>
      a.payload.assertion.assertionId != b.payload.assertion.assertionId
  }

  predicate CreatesNone(before: set<Id>, op: Operation) {
    op.opType == CREATE_IDENTITY && op.payload.EntityDump? ==> op.payload.entity.identityId !in before
  }

  lemma StaysClear(adapter: Adapter, t: Tables, a: Operation, b: Operation, newEpoch: nat)
    requires WellShaped(a) && Clear(t, a) && Clear(t, b) && Apart(a, b) && ApplyOp(adapter, t, a, newEpoch).Ran?
    ensures Clear(ApplyOp(adapter, t, a, newEpoch).tables, b)
  {
    var next := ApplyOp(adapter, t, a, newEpoch).tables;
    if a.opType == ATTACH_ASSERTION {
      RowOfIs(t.rows, a.payload.assertion.subject, a.payload.assertion.assertionId, |t.rows|);
    }
    if b.opType == ATTACH_ASSERTION && b.payload.AssertionDump? {
      RowWithIdIs(next.rows, b.payload.assertion.assertionId, |next.rows|);
    }
  }

  lemma {:induction false} ClearIsEnabled(adapter: Adapter, before: set<Id>, t: Tables, ops: seq<Operation>,
                                          newEpoch: nat)
    requires RunOps(adapter, t, ops, newEpoch).Ran?
    requires forall op <- ops :: WellShaped(op) && Clear(t, op) && CreatesNone(before, op)
    requires forall i, j :: 0 <= i < j < |ops| ==> Apart(ops[i], ops[j])
    ensures EnabledFrom(adapter, before, t, ops, newEpoch)
    decreases ops
  {
    if ops != [] {
      assert ops[0] in ops;
      assert WellShaped(ops[0]) && Clear(t, ops[0]) && CreatesNone(before, ops[0]);
      var next := ApplyOp(adapter, t, ops[0], newEpoch).tables;
      forall op <- ops[1..] ensures WellShaped(op) && Clear(next, op) && CreatesNone(before, op) {
        var k :| 0 <= k < |ops| - 1 && ops[1..][k] == op;
        assert Apart(ops[0], ops[k + 1]) && op in ops;
        StaysClear(adapter, t, ops[0], op, newEpoch);
      }
      forall i, j | 0 <= i < j < |ops| - 1 ensures Apart(ops[1..][i], ops[1..][j]) {
        assert Apart(ops[i + 1], ops[j + 1]);
      }
      ClearIsEnabled(adapter, before, next, ops[1..], newEpoch);
    }
  }

  lemma CommitPassesStoreGuards(cfg: Config, g: GraphState, plan: Plan)
    requires Commits(cfg, g, plan)
    ensures FailedOf(g.versions, plan.preconditions) == []
  {
  }

  lemma CreatedIsNew(cfg: Config, g: GraphState, plan: Plan, id: Id)
    requires Commits(cfg, g, plan) && EntitiesHaveVersions(g) && EntityGuard(id) in plan.preconditions
    ensures id !in g.tables.entities
  {
    CommitPassesStoreGuards(cfg, g, plan);
    FailedNames(g.versions, plan.preconditions, EntityGuard(id));
    assert Decimal(0) == "0";
    DecimalInjective(0, VersionOf(g.versions, id));
  }

  /** No minted id has a row that its guard does not see: one of another subject, or a revoked
      one. */
  predicate NothingUnseen(rows: seq<Assertion>, minted: seq<(Id, Id)>) {
    forall m <- minted, row <- rows :: row.assertionId == m.1 ==> row.subject == m.0 && row.status != REVOKED
  }

  lemma AllApart(ops: seq<Operation>)
    requires (forall op <- ops :: WellShaped(op)) && MintsOnce(Minted(ops))
    ensures forall i, j :: 0 <= i < j < |ops| ==> Apart(ops[i], ops[j])
  {
    forall i, j | 0 <= i < j < |ops| ensures Apart(ops[i], ops[j]) {
      assert WellShaped(ops[i]) && WellShaped(ops[j]);
      if ops[i].opType == ops[j].opType == ATTACH_ASSERTION { DistinctMints(ops, i, j); }
    }
  }

  lemma UnseenIsClear(t: Tables, ops: seq<Operation>, op: Operation)
    requires op in ops && NothingUnseen(t.rows, Minted(ops))
    requires forall m <- Minted(ops) :: !Present(t.rows, m.0, m.1)
    ensures Clear(t, op)
  {
    if op.opType == ATTACH_ASSERTION && op.payload.AssertionDump? {
      var k :| 0 <= k < |ops| && ops[k] == op;
      MintIsThere(ops, k);
      var id := op.payload.assertion.assertionId;
      forall i | 0 <= i < |t.rows| ensures t.rows[i].assertionId != id { assert t.rows[i] in t.rows; }
      RowWithIdIs(t.rows, id, |t.rows|);
    }
  }

  /** What a committed plan's guards have seen to. */
  lemma CommittedPlan(cfg: Config, g: GraphState, p: Planner, items: seq<Item>)
    requires PlanOf(p, items).Ok? && PlanOf(p, items).value.Some?
    requires Commits(cfg, g, PlanOf(p, items).value.value) && EntitiesHaveVersions(g)
    requires cfg.hasReader || Minted(PlanOf(p, items).value.value.operations) == []
    ensures var ops := PlanOf(p, items).value.value.operations;
            && RunOps(cfg.adapter, g.tables, ops, g.epoch + 1).Ran? && MintsOnce(Minted(ops))
            && (forall op <- ops :: WellShaped(op) && CreatesNone(g.tables.entities.Keys, op))
            && (forall m <- Minted(ops) :: !Present(g.tables.rows, m.0, m.1))
  {
    var plan := PlanOf(p, items).value.value;
    PlansAreWellShaped(p, items);
    PlansAreGuarded(p, items);
    CommitFacts(cfg, g, plan, false);
    SelfConflictIff(plan.operations);
    if cfg.hasReader { GuardedCommit(cfg, g, plan); }
    forall op <- plan.operations ensures CreatesNone(g.tables.entities.Keys, op) {
      if op.opType == CREATE_IDENTITY { CreatedIsNew(cfg, g, plan, op.payload.entity.identityId); }
    }
  }

  /** Where nothing minted is unseen, every operation of a committed plan is enabled; one that
      creates an identity again is too. */
  lemma UnseenIsEnabled(cfg: Config, g: GraphState, p: Planner, items: seq<Item>)
    requires PlanOf(p, items).Ok? && PlanOf(p, items).value.Some?
    requires Commits(cfg, g, PlanOf(p, items).value.value) && EntitiesHaveVersions(g)
    requires cfg.hasReader || Minted(PlanOf(p, items).value.value.operations) == []
    requires NothingUnseen(g.tables.rows, Minted(PlanOf(p, items).value.value.operations))
    ensures EnabledAll(cfg.adapter, g.tables, PlanOf(p, items).value.value.operations, g.epoch + 1)
  {
    var ops := PlanOf(p, items).value.value.operations;
    CommittedPlan(cfg, g, p, items);
    forall op <- ops ensures Clear(g.tables, op) { UnseenIsClear(g.tables, ops, op); }
    AllApart(ops);
    ClearIsEnabled(cfg.adapter, g.tables.entities.Keys, g.tables, ops, g.epoch + 1);
  }

  /* ---------- an attach over a row its guard does not see ---------- */

  /** Row j shows that the record was attached where `base` already had a row with its id: it
      took a revoked row's place, or stands behind the row that its retraction finds. */
  predicate Scarred(rows: seq<Assertion>, base: seq<Assertion>, id: Id, j: nat) {
    && |base| <= |rows| && j < |rows| && rows[j].assertionId == id
    && if j < |base| then base[j].status == REVOKED && rows[j].status != REVOKED
       else RowWithId(rows, id) < |base| && rows[j].status == ACTIVE
  }

  predicate MintsNot(op: Operation, id: Id) { forall m <- MintedBy(op) :: m.1 != id }

  /** Only attaching the record again could undo that. */
  lemma ScarStays(adapter: Adapter, t: Tables, base: seq<Assertion>, op: Operation, newEpoch: nat, id: Id, j: nat)
    requires Scarred(t.rows, base, id, j) && MintsNot(op, id) && ApplyOp(adapter, t, op, newEpoch).Ran?
    ensures Scarred(ApplyOp(adapter, t, op, newEpoch).tables.rows, base, id, j)
  {
    var rows := ApplyOp(adapter, t, op, newEpoch).tables.rows;
    if op.opType == ATTACH_ASSERTION {
      var a := op.payload.assertion;
      assert MintedBy(op)[0].1 == a.assertionId;
    }
    RowWithIdIs(rows, id, RowWithId(t.rows, id));
  }

  lemma {:induction false} ScarsStay(adapter: Adapter, t: Tables, base: seq<Assertion>, ops: seq<Operation>,
                                     newEpoch: nat, id: Id, j: nat)
    requires Scarred(t.rows, base, id, j) && forall op <- ops :: MintsNot(op, id)
    requires RunOps(adapter, t, ops, newEpoch).Ran?
    ensures Scarred(RunOps(adapter, t, ops, newEpoch).tables.rows, base, id, j)
    decreases ops
  {
    if ops != [] {
      assert MintsNot(ops[0], id);
      ScarStays(adapter, t, base, ops[0], newEpoch, id, j);
      ScarsStay(adapter, ApplyOp(adapter, t, ops[0], newEpoch).tables, base, ops[1..], newEpoch, id, j);
    }
  }

  /** The rows with the id are those of `base`, as they were. */
  predicate Untouched(rows: seq<Assertion>, base: seq<Assertion>, id: Id) {
    && |base| <= |rows|
    && (forall i :: 0 <= i < |base| ==> rows[i].assertionId == base[i].assertionId)
    && (forall i :: 0 <= i < |base| && base[i].assertionId == id ==> rows[i] == base[i])
    && (forall i :: |base| <= i < |rows| ==> rows[i].assertionId != id)
  }

  lemma UntouchedStays(adapter: Adapter, t: Tables, base: seq<Assertion>, op: Operation, newEpoch: nat, id: Id)
    requires Untouched(t.rows, base, id) && WellShaped(op) && MintsNot(op, id)
    requires ApplyOp(adapter, t, op, newEpoch).Ran?
    ensures Untouched(ApplyOp(adapter, t, op, newEpoch).tables.rows, base, id)
  {
    if op.opType == ATTACH_ASSERTION { assert MintedBy(op)[0].1 == op.payload.assertion.assertionId; }
  }

  lemma AttachScars(adapter: Adapter, t: Tables, base: seq<Assertion>, op: Operation, newEpoch: nat, id: Id)
    returns (j: nat)
    requires WellShaped(op) && op.opType == ATTACH_ASSERTION && op.payload.assertion.assertionId == id
    requires Untouched(t.rows, base, id) && RowWithId(base, id) < |base|
    requires !Present(base, op.payload.assertion.subject, id) && ApplyOp(adapter, t, op, newEpoch).Ran?
    ensures Scarred(ApplyOp(adapter, t, op, newEpoch).tables.rows, base, id, j)
  {
    var rows, i := ApplyOp(adapter, t, op, newEpoch).tables.rows, RowWithId(base, id);
    j := RowOf(t.rows, op.payload.assertion.subject, id);
    if adapter.upserts && j < |t.rows| {
      assert t.rows[j] == base[j] && base[j] in base;
    } else {
      j := |t.rows|;
      assert rows[i] == base[i];
      assert RowWithId(rows, id) <= i;
    }
  }

  lemma {:induction false} RunScars(adapter: Adapter, t: Tables, base: seq<Assertion>, ops: seq<Operation>, k: nat,
                                    newEpoch: nat, m: (Id, Id)) returns (j: nat)
    requires k < |ops| && MintedBy(ops[k]) == [m] && !Present(base, m.0, m.1)
    requires (forall op <- ops :: WellShaped(op)) && forall i :: 0 <= i < |ops| && i != k ==> MintsNot(ops[i], m.1)
    requires Untouched(t.rows, base, m.1) && RowWithId(base, m.1) < |base| && RunOps(adapter, t, ops, newEpoch).Ran?
    ensures Scarred(RunOps(adapter, t, ops, newEpoch).tables.rows, base, m.1, j)
    decreases ops
  {
    assert WellShaped(ops[0]) by { assert ops[0] in ops; }
    var next, rest := ApplyOp(adapter, t, ops[0], newEpoch).tables, ops[1..];
    assert forall i :: 0 <= i < |rest| ==> rest[i] == ops[i + 1];
    if k == 0 {
      j := AttachScars(adapter, t, base, ops[0], newEpoch, m.1);
      ScarsStay(adapter, next, base, rest, newEpoch, m.1, j);
    } else {
      UntouchedStays(adapter, t, base, ops[0], newEpoch, m.1);
      j := RunScars(adapter, next, base, rest, k - 1, newEpoch, m);
    }
  }

  lemma ScarIsNotCovered(u: Tables, t: Tables, id: Id, j: nat)
    requires Scarred(u.rows, t.rows, id, j)
    ensures !Covers(Erased(u), Erased(t))
  {
    assert Erased(u).rows[j].status == u.rows[j].status;
    if j < |t.rows| { assert Erased(t).rows[j].status == t.rows[j].status; }
  }

  lemma MintsOneElse(ops: seq<Operation>, k: nat, m: (Id, Id))
    requires k < |ops| && MintedBy(ops[k]) == [m] && MintsOnce(Minted(ops))
    ensures forall i :: 0 <= i < |ops| && i != k ==> MintsNot(ops[i], m.1)
  {
    forall i | 0 <= i < |ops| && i != k ensures MintsNot(ops[i], m.1) {
      if MintedBy(ops[i]) != [] {
        if i < k { DistinctMints(ops, i, k); } else { DistinctMints(ops, k, i); }
      }
    }
  }

  lemma UnseenScars(adapter: Adapter, t: Tables, ops: seq<Operation>, newEpoch: nat) returns (id: Id, j: nat)
    requires (forall op <- ops :: WellShaped(op)) && MintsOnce(Minted(ops)) && RunOps(adapter, t, ops, newEpoch).Ran?
    requires (forall m <- Minted(ops) :: !Present(t.rows, m.0, m.1)) && !NothingUnseen(t.rows, Minted(ops))
    ensures Scarred(RunOps(adapter, t, ops, newEpoch).tables.rows, t.rows, id, j)
  {
    var m, row :| m in Minted(ops) && row in t.rows && row.assertionId == m.1;
    var i :| 0 <= i < |t.rows| && t.rows[i] == row;
    assert RowWithId(t.rows, m.1) <= i;
    MintedComesFrom(ops, m);
    var k :| 0 <= k < |ops| && MintedBy(ops[k]) == [m];
    MintsOneElse(ops, k, m);
    id := m.1;
    j := RunScars(adapter, t, t.rows, ops, k, newEpoch, m);
  }

  lemma CompensationKeepsScar(cfg: Config, g: GraphState, comp: Plan, base: seq<Assertion>, id: Id, j: nat)
    requires Commits(cfg, g, comp) && Minted(comp.operations) == [] && Scarred(g.tables.rows, base, id, j)
    ensures Scarred(AfterComp(cfg, g, comp).tables.rows, base, id, j)
  {
    CommitFacts(cfg, g, comp, true);
    MintingNothing(comp.operations);
    ScarsStay(cfg.adapter, g.tables, base, comp.operations, g.epoch + 1, id, j);
  }

  /** What is minted over an unseen row is not taken back. */
  lemma UnseenDoesNotRollBack(cfg: Config, settings: Settings, g: GraphState, p: Planner, items: seq<Item>)
    requires PlanOf(p, items).Ok? && PlanOf(p, items).value.Some?
    requires Commits(cfg, g, PlanOf(p, items).value.value) && EntitiesHaveVersions(g)
    requires cfg.hasReader || Minted(PlanOf(p, items).value.value.operations) == []
    requires !NothingUnseen(g.tables.rows, Minted(PlanOf(p, items).value.value.operations))
    ensures !RollsBack(cfg, settings, g, PlanOf(p, items).value.value)
  {
    var plan := PlanOf(p, items).value.value;
    var g1 := AfterPlan(cfg, g, plan);
    CommittedPlan(cfg, g, p, items);
    CommitFacts(cfg, g, plan, false);
    var id, j := UnseenScars(cfg.adapter, g.tables, plan.operations, g.epoch + 1);
    PlansCompensateInFull(p, items, settings, g1.epoch);
    var comp := FullCompensation(settings, plan, g1.epoch).value;
    if Commits(cfg, g1, comp) {
      CompensationKeepsScar(cfg, g1, comp, g.tables.rows, id, j);
      ScarIsNotCovered(AfterComp(cfg, g1, comp).tables, g.tables, id, j);
    }
  }

  lemma {:induction false} RunIsImplemented(adapter: Adapter, t: Tables, ops: seq<Operation>, newEpoch: nat)
    requires RunOps(adapter, t, ops, newEpoch).Ran?
    ensures forall op <- ops :: op.opType in adapter.implemented
    decreases ops
  {
    if ops != [] { RunIsImplemented(adapter, ApplyOp(adapter, t, ops[0], newEpoch).tables, ops[1..], newEpoch); }
  }

  lemma SupportedAll(supported: set<OpType>, ops: seq<Operation>)
    ensures UnsupportedTypes(supported, ops) == {} ==> forall op <- ops :: op.opType in supported
  {
    forall op <- ops | op.opType !in supported ensures op.opType in UnsupportedTypes(supported, ops) {}
  }

  lemma CommitIsAdmitted(cfg: Config, g: GraphState, plan: Plan)
    requires Commits(cfg, g, plan)
    ensures forall op <- plan.operations :: Admits(cfg, op.opType)
  {
    CommitFacts(cfg, g, plan, false);
    RunIsImplemented(cfg.adapter, g.tables, plan.operations, g.epoch + 1);
    SupportedAll(cfg.supported, plan.operations);
  }

  lemma AdmittedUndoersReverse(cfg: Config, ops: seq<Operation>, qs: seq<Operation>, allowLegacy: bool)
    requires UndoesAll(qs, ops, allowLegacy) && (forall q <- qs :: Admits(cfg, q.opType))
    requires forall op <- ops :: WellShaped(op)
    ensures Reversible(cfg, ops)
  {
    forall op <- ops ensures ReversibleOp(cfg, op) {
      var i :| 0 <= i < |ops| && ops[i] == op;
      assert Undoes(qs[|ops| - 1 - i], ops[i], allowLegacy) && qs[|ops| - 1 - i] in qs && WellShaped(op);
    }
  }

  lemma RolledBackIsReversible(cfg: Config, settings: Settings, g: GraphState, p: Planner, items: seq<Item>)
    requires PlanOf(p, items).Ok? && PlanOf(p, items).value.Some?
    requires RollsBack(cfg, settings, g, PlanOf(p, items).value.value)
    ensures Reversible(cfg, PlanOf(p, items).value.value.operations)
  {
    var plan := PlanOf(p, items).value.value;
    var g1 := AfterPlan(cfg, g, plan);
    var comp := FullCompensation(settings, plan, g1.epoch).value;
    PlansAreWellShaped(p, items);
    PlanIsFullyCompensated(p, items, settings, g1.epoch);
    CommitIsAdmitted(cfg, g1, comp);
    AdmittedUndoersReverse(cfg, plan.operations, comp.operations, settings.allowLegacy);
  }

  /** A planned plan that commits rolls back exactly when the inverses of its operations are
      admitted and no minted id has a row its guard does not see: the guards have seen to the
      rest, and creating an identity twice does no harm.  It then also comes back, where the
      types to come back with are admitted. */
  lemma PlansRollBackIff(cfg: Config, settings: Settings, g: GraphState, p: Planner, items: seq<Item>)
    requires PlanOf(p, items).Ok? && PlanOf(p, items).value.Some?
    requires Commits(cfg, g, PlanOf(p, items).value.value) && EntitiesHaveVersions(g)
    requires cfg.hasReader || Minted(PlanOf(p, items).value.value.operations) == []
    ensures var plan := PlanOf(p, items).value.value;
            RollsBack(cfg, settings, g, plan) <==>
            Reversible(cfg, plan.operations) && NothingUnseen(g.tables.rows, Minted(plan.operations))
    ensures var plan := PlanOf(p, items).value.value;
            RollsBack(cfg, settings, g, plan) && Restorable(cfg, plan.operations) ==> ComesBack(cfg, settings, g, plan)
  {
    var plan := PlanOf(p, items).value.value;
    PlansAreGuarded(p, items);
    if RollsBack(cfg, settings, g, plan) { RolledBackIsReversible(cfg, settings, g, p, items); }
    if !NothingUnseen(g.tables.rows, Minted(plan.operations)) {
      UnseenDoesNotRollBack(cfg, settings, g, p, items);
    } else if Reversible(cfg, plan.operations) {
      UnseenIsEnabled(cfg, g, p, items);
      RollbackRestores(cfg, settings, g, plan);
      if Restorable(cfg, plan.operations) { UndoOfUndoRestores(cfg, settings, g, plan); }
    }
  }

  lemma {:induction false} CreationsMintNothing(ops: seq<Operation>)
    requires forall op <- ops :: op.opType == CREATE_IDENTITY
    ensures Minted(ops) == []
  {
    if ops != [] {
      assert ops[0].opType == CREATE_IDENTITY;
      CreationsMintNothing(ops[1..]);
    }
  }

  /** A committed plan of creations on the reference store rolls back and comes back, with or
      without a reader, and even where it creates an identity twice. */
  lemma PlannedCreationsRollBack(cfg: Config, settings: Settings, g: GraphState, p: Planner, items: seq<Item>)
    requires cfg.adapter == REFERENCE && DEFAULT_SUPPORTED <= cfg.supported
    requires PlanOf(p, items).Ok? && PlanOf(p, items).value.Some?
    requires Commits(cfg, g, PlanOf(p, items).value.value) && EntitiesHaveVersions(g)
    requires forall op <- PlanOf(p, items).value.value.operations :: op.opType == CREATE_IDENTITY
    ensures var plan := PlanOf(p, items).value.value;
            RollsBack(cfg, settings, g, plan) && ComesBack(cfg, settings, g, plan)
  {
    CreationsMintNothing(PlanOf(p, items).value.value.operations);
    PlansAreGuarded(p, items);
    UnseenIsEnabled(cfg, g, p, items);
    CreationsOnReference(cfg, settings, g, PlanOf(p, items).value.value);
  }

  /* ---------- the id of a stored row ---------- */

  /** The seed of the row as stored gives back the minted id's seed exactly when the object is
      a JSON value: a date is stored as its text, and the text has another seed. */
  lemma StoredSeedIff(p: Planner, c: Candidate, subject: Id, attribute: string, content: Content)
    requires NulFree(FactKey(p.digest, subject, attribute)) && !content.objectValue.Unrenderable?
    ensures var a := RecordOf(p, c, subject, attribute, content);
            && a.Ok?
            && (SeedOf(p.digest, Dumped(a.value)) == RecordSeed(FactKey(p.digest, subject, attribute), content) <==>
                content.objectValue.Native?)
  {
    var a, fact := RecordOf(p, c, subject, attribute, content).value, FactKey(p.digest, subject, attribute);
    RecordSeedIff(fact, Dumped(a).content, fact, content);
  }
}
