/** Compensating plans (src/kgcs/executor/compensate.py): a committed plan's operations
    inverted in reverse order and guarded at the epoch the plan committed at. */
module Compensation {
  import opened Wrappers
  import opened Contracts
  import opened Ids
  import opened Numerals
  import opened Sequences

  /** The contract's inverse vocabulary; a promoted ontology term has no inverse. */
  function InverseType(t: OpType): Option<OpType> {
    match t
    case CREATE_IDENTITY => Some(REVOKE_IDENTITY)
    case REVOKE_IDENTITY => Some(RESTORE_IDENTITY)
    case RESTORE_IDENTITY => Some(REVOKE_IDENTITY)
    case ATTACH_ASSERTION => Some(RETRACT_ASSERTION)
    case RETRACT_ASSERTION => Some(ATTACH_ASSERTION)
    case MERGE_IDENTITIES => Some(SPLIT_IDENTITY)
    case SPLIT_IDENTITY => Some(MERGE_IDENTITIES)
    case REASSIGN_ASSERTION => Some(REASSIGN_ASSERTION)
    case PROMOTE_ONTOLOGY_TERM => None
  }

  predicate Compensable(op: Operation) { InverseType(op.opType).Some? }

  /** The `against_snapshot` argument: an integer (or a text Python reads as one), or a
      value that is no epoch at all. */
  datatype SnapshotArgument = Whole(n: int) | NotAnEpoch

  datatype CompensationError = NotAnEpochError | NoInversePayload(op: Id) | MalformedPayload(op: Id)

  datatype CompensationResult = CompensationResult(plan: Option<Plan>, nonCompensable: seq<Operation>)

  datatype Split = Split(inverses: seq<Operation>, rest: seq<Operation>)

  function InversePayload(op: Operation, allowLegacy: bool): Result<Payload, CompensationError> {
    match op.reversal
    case Inverse(payload, _) => Ok(payload)
    case MalformedInverse => Err(MalformedPayload(op.operationId))
    case Legacy(whole) => if allowLegacy then Ok(whole) else Err(NoInversePayload(op.operationId))
  }

  /** The inverse offers the original payload as its own inverse payload. */
  function Inverted(ids: IdFactory, op: Operation, t: OpType, payload: Payload): Operation {
    Operation(ids.OperationId(op.operationId + ":compensate"), t, payload,
              Inverse(op.payload, Compensates(op.operationId, op.opType, op.payload)))
  }

  /** The inverses of ops, last operation first, and the operations without one. */
  function InvertAll(ids: IdFactory, ops: seq<Operation>, allowLegacy: bool): Result<Split, CompensationError> {
    if ops == [] then Ok(Split([], []))
    else
      match InvertAll(ids, ops[1..], allowLegacy)
      case Err(e) => Err(e)
      case Ok(later) =>
        match InverseType(ops[0].opType)
        case None => Ok(later.(rest := later.rest + [ops[0]]))
        case Some(t) =>
          match InversePayload(ops[0], allowLegacy)
          case Err(e) => Err(e)
          case Ok(payload) => Ok(later.(inverses := later.inverses + [Inverted(ids, ops[0], t, payload)]))
  }

  function Rebased(ps: seq<Precondition>, snapshot: string): seq<Precondition> {
    if ps == [] then []
    else (if ps[0].kind == SnapshotVersion then [ps[0].(expected := snapshot)] else []) + Rebased(ps[1..], snapshot)
  }

  /** The source plan's snapshot guards expecting `snapshot`, or one made up for it. */
  function SnapshotGuards(plan: Plan, snapshot: string): seq<Precondition>
    requires plan.WellFormed()
  {
    var rebased := Rebased(plan.preconditions, snapshot);
    if rebased != [] then rebased else [Precondition(SnapshotVersion, plan.candidateIds[0], snapshot)]
  }

  datatype Settings = Settings(ids: IdFactory, policyVersion: string, allowLegacy: bool)

  function CompensationOf(settings: Settings, plan: Plan, against: SnapshotArgument): Result<CompensationResult,
                          CompensationError>
    requires plan.WellFormed()
  {
    if against.NotAnEpoch? || against.n < 0 then Err(NotAnEpochError)
    else
      var snapshot := Decimal(against.n);
      match InvertAll(settings.ids, plan.operations, settings.allowLegacy)
      case Err(e) => Err(e)
      case Ok(split) =>
        if split.inverses == [] then Ok(CompensationResult(None, split.rest))
        else
          Ok(CompensationResult(
            Some(Plan(settings.ids.PlanId(plan.planId + ":compensate"), plan.candidateIds, snapshot, split.inverses,
                      SnapshotGuards(plan, snapshot), plan.evidenceIds, settings.policyVersion)),
            split.rest))
  }

  class Compensator {
    const settings: Settings

    constructor (settings: Settings)
      ensures this.settings == settings
    {
      this.settings := settings;
    }

    /** Walks the operations from the last to the first. */
    method Compensate(plan: Plan, against: SnapshotArgument) returns (r: Result<CompensationResult, CompensationError>)
      requires plan.WellFormed()
      ensures r == CompensationOf(settings, plan, against)
    {
      if against.NotAnEpoch? || against.n < 0 {
        return Err(NotAnEpochError);
      }
      var snapshot := Decimal(against.n);
      var inverses: seq<Operation>, rest: seq<Operation> := [], [];
      var i := |plan.operations|;
      while i > 0
        invariant 0 <= i <= |plan.operations|
        invariant InvertAll(settings.ids, plan.operations[i..], settings.allowLegacy) == Ok(Split(inverses, rest))
      {
        i := i - 1;
        var op := plan.operations[i];
        NextSuffix(plan.operations, i);
        match InverseType(op.opType)
        case None =>
          rest := rest + [op];
        case Some(t) =>
          match InversePayload(op, settings.allowLegacy) {
            case Err(e) =>
              ErrorSpreads(settings.ids, plan.operations, i, settings.allowLegacy, e);
              return Err(e);
            case Ok(payload) =>
              inverses := inverses + [Inverted(settings.ids, op, t, payload)];
          }
      }
      assert plan.operations[0..] == plan.operations;
      if inverses == [] {
        return Ok(CompensationResult(None, rest));
      }
      var compensating :=
        Plan(settings.ids.PlanId(plan.planId + ":compensate"), plan.candidateIds, snapshot, inverses,
             SnapshotGuards(plan, snapshot), plan.evidenceIds, settings.policyVersion);
      return Ok(CompensationResult(Some(compensating), rest));
    }
  }

  lemma {:induction false} ErrorSpreads(ids: IdFactory, ops: seq<Operation>, i: nat, allowLegacy: bool,
                                        e: CompensationError)
    requires i <= |ops| && InvertAll(ids, ops[i..], allowLegacy) == Err(e)
    ensures InvertAll(ids, ops, allowLegacy) == Err(e)
    decreases i
  {
    if i == 0 {
      assert ops[0..] == ops;
    } else {
      NextSuffix(ops, i - 1);
      ErrorSpreads(ids, ops, i - 1, allowLegacy, e);
    }
  }

  /* ---------- structure ---------- */

  /** The operations of ops that have (or lack) an inverse, in order. */
  function Keep(ops: seq<Operation>, compensable: bool): seq<Operation> {
    if ops == [] then [] else KeepOne(ops[0], compensable) + Keep(ops[1..], compensable)
  }

  function KeepOne(op: Operation, compensable: bool): seq<Operation> {
    if Compensable(op) == compensable then [op] else []
  }

  lemma {:induction false} KeepPartitions(ops: seq<Operation>)
    ensures multiset(Keep(ops, true)) + multiset(Keep(ops, false)) == multiset(ops)
  {
    if ops != [] {
      KeepPartitions(ops[1..]);
      assert ops == [ops[0]] + ops[1..];
    }
  }

  /** Operation q undoes p: the inverse type, p's inverse payload, and p's own type, id and
      payload on record. */
  predicate Undoes(q: Operation, p: Operation, allowLegacy: bool) {
    && InverseType(p.opType) == Some(q.opType)
    && InversePayload(p, allowLegacy) == Ok(q.payload)
    && q.reversal == Inverse(p.payload, Compensates(p.operationId, p.opType, p.payload))
  }

  predicate UndoesAll(qs: seq<Operation>, ps: seq<Operation>, allowLegacy: bool) {
    |qs| == |ps| && forall i :: 0 <= i < |ps| ==> Undoes(qs[i], ps[|ps| - 1 - i], allowLegacy)
  }

  predicate ReverseOf(qs: seq<Operation>, ps: seq<Operation>) {
    |qs| == |ps| && forall i :: 0 <= i < |ps| ==> qs[i] == ps[|ps| - 1 - i]
  }

  /** The inversion is refused exactly when some operation with an inverse type has no usable
      inverse payload. */
  lemma {:induction false} InvertAllOkIff(ids: IdFactory, ops: seq<Operation>, allowLegacy: bool)
    ensures InvertAll(ids, ops, allowLegacy).Ok? <==>
            forall op <- ops :: Compensable(op) ==> InversePayload(op, allowLegacy).Ok?
  {
    if ops != [] {
      InvertAllOkIff(ids, ops[1..], allowLegacy);
      assert forall op :: op in ops <==> op == ops[0] || op in ops[1..];
    }
  }

  lemma UndoesOneMore(qs: seq<Operation>, ps: seq<Operation>, q: Operation, p: Operation, allowLegacy: bool)
    requires UndoesAll(qs, ps, allowLegacy) && Undoes(q, p, allowLegacy)
    ensures UndoesAll(qs + [q], [p] + ps, allowLegacy)
  {
    forall i | 0 <= i <= |ps| ensures Undoes((qs + [q])[i], ([p] + ps)[|ps| - i], allowLegacy) {
      if i < |ps| {
        assert Undoes(qs[i], ps[|ps| - 1 - i], allowLegacy);
      }
    }
  }

  lemma ReversesOneMore(qs: seq<Operation>, ps: seq<Operation>, p: Operation)
    requires ReverseOf(qs, ps)
    ensures ReverseOf(qs + [p], [p] + ps)
  {
  }

  /** Every source operation appears exactly once: as its inverse, in reverse order, or among
      the non-compensable ones, in reverse order. */
  lemma {:induction false} InvertAllStructure(ids: IdFactory, ops: seq<Operation>, allowLegacy: bool)
    requires InvertAll(ids, ops, allowLegacy).Ok?
    ensures var split := InvertAll(ids, ops, allowLegacy).value;
            UndoesAll(split.inverses, Keep(ops, true), allowLegacy) && ReverseOf(split.rest, Keep(ops, false))
  {
    if ops != [] {
      InvertAllStructure(ids, ops[1..], allowLegacy);
      var later := InvertAll(ids, ops[1..], allowLegacy).value;
      var op := ops[0];
      if Compensable(op) {
        UndoesOneMore(later.inverses, Keep(ops[1..], true),
                      Inverted(ids, op, InverseType(op.opType).value, InversePayload(op, allowLegacy).value), op,
                      allowLegacy);
      } else {
        ReversesOneMore(later.rest, Keep(ops[1..], false), op);
      }
    }
  }

  lemma {:induction false} RebasedGuards(ps: seq<Precondition>, snapshot: string)
    ensures forall p <- Rebased(ps, snapshot) :: p.kind == SnapshotVersion && p.expected == snapshot
    ensures |Rebased(ps, snapshot)| == SnapshotCount(ps)
  {
    if ps != [] { RebasedGuards(ps[1..], snapshot); }
  }

  function SnapshotCount(ps: seq<Precondition>): nat {
    if ps == [] then 0 else (if ps[0].kind == SnapshotVersion then 1 else 0) + SnapshotCount(ps[1..])
  }

  /** A compensating plan has snapshot guards only, all expecting the given epoch: as many as
      the source plan had, and at least one. */
  lemma GuardsExpectEpoch(settings: Settings, plan: Plan, against: SnapshotArgument)
    requires plan.WellFormed()
    requires var r := CompensationOf(settings, plan, against); r.Ok? && r.value.plan.Some?
    ensures var comp := CompensationOf(settings, plan, against).value.plan.value;
            && comp.WellFormed() && comp.operations != []
            && (forall p <- comp.preconditions :: p.kind == SnapshotVersion && p.expected == Decimal(against.n))
            && |comp.preconditions| ==
               (if SnapshotCount(plan.preconditions) > 0 then SnapshotCount(plan.preconditions) else 1)
  {
    RebasedGuards(plan.preconditions, Decimal(against.n));
  }

  /** Compensation is refused exactly for a value that is no epoch or a missing or malformed
      inverse payload. */
  lemma CompensationOkIff(settings: Settings, plan: Plan, against: SnapshotArgument)
    requires plan.WellFormed()
    ensures CompensationOf(settings, plan, against).Ok? <==>
            && against.Whole? && against.n >= 0
            && forall op <- plan.operations :: Compensable(op) ==> InversePayload(op, settings.allowLegacy).Ok?
  {
    InvertAllOkIff(settings.ids, plan.operations, settings.allowLegacy);
  }

  /* ---------- what a compensating plan is made of ---------- */

  /** Only a promoted ontology term cannot be taken back. */
  function Reversed(): Operation -> bool { (op: Operation) => op.opType != PROMOTE_ONTOLOGY_TERM }

  function Promotes(): Operation -> bool { (op: Operation) => op.opType == PROMOTE_ONTOLOGY_TERM }

  lemma KeepFirst(a: seq<Operation>, b: seq<Operation>, compensable: bool)
    requires a != []
    ensures Keep(a + b, compensable) == KeepOne(a[0], compensable) + Keep(a[1..] + b, compensable)
  {
    assert (a + b)[0] == a[0] && (a + b)[1..] == a[1..] + b;
  }

  lemma {:induction false} KeepAppend(a: seq<Operation>, b: seq<Operation>, compensable: bool)
    ensures Keep(a + b, compensable) == Keep(a, compensable) + Keep(b, compensable)
  {
    if a == [] {
      assert a + b == b;
    } else {
      KeepFirst(a, b, compensable);
      KeepAppend(a[1..], b, compensable);
      Regrouped(KeepOne(a[0], compensable), Keep(a[1..], compensable), Keep(b, compensable));
    }
  }

  lemma {:induction false} KeepIsFilter(ops: seq<Operation>)
    ensures Keep(ops, true) == Filter(ops, Reversed()) && Keep(ops, false) == Filter(ops, Promotes())
  {
    if ops != [] {
      var n := |ops| - 1;
      assert ops == ops[..n] + [ops[n]] && [ops[n]][1..] == [];
      KeepIsFilter(ops[..n]);
      KeepAppend(ops[..n], [ops[n]], true);
      KeepAppend(ops[..n], [ops[n]], false);
    }
  }

  /** What takes an operation back, type by type: a creation or a restoration is revoked, a
      revocation restored, an attach retracted and a retraction attached again, a merge split
      and a split merged; only a reassignment is taken back by its own type. */
  predicate TakesBack(t: OpType, by_: OpType) {
    && (t == CREATE_IDENTITY || t == RESTORE_IDENTITY <==> by_ == REVOKE_IDENTITY)
    && (t == REVOKE_IDENTITY <==> by_ == RESTORE_IDENTITY)
    && (t == ATTACH_ASSERTION <==> by_ == RETRACT_ASSERTION)
    && (t == RETRACT_ASSERTION <==> by_ == ATTACH_ASSERTION)
    && (t == MERGE_IDENTITIES <==> by_ == SPLIT_IDENTITY)
    && (t == SPLIT_IDENTITY <==> by_ == MERGE_IDENTITIES)
    && (t == REASSIGN_ASSERTION <==> by_ == REASSIGN_ASSERTION)
    && by_ != CREATE_IDENTITY && by_ != PROMOTE_ONTOLOGY_TERM
  }

  /** The inverse of one operation: what takes its type back, on what the operation itself
      kept for that (or, where that is allowed, its whole reversal dictionary), with the
      operation's own payload to undo the inverse by, and its id, type and payload on record. */
  predicate InverseOf(q: Operation, op: Operation, allowLegacy: bool) {
    && TakesBack(op.opType, q.opType)
    && (match op.reversal
        case Inverse(payload, _) => q.payload == payload
        case Legacy(whole) => allowLegacy && q.payload == whole
        case MalformedInverse => false)
    && q.reversal.Inverse? && q.reversal.payload == op.payload
    && q.reversal.lineage == Compensates(op.operationId, op.opType, op.payload)
  }

  /** The inverses of all of ops, last one first. */
  predicate InversesOf(qs: seq<Operation>, ops: seq<Operation>, allowLegacy: bool) {
    |qs| == |ops| && forall i :: 0 <= i < |ops| ==> InverseOf(qs[i], ops[|ops| - 1 - i], allowLegacy)
  }

  lemma UndoingIsInverse(q: Operation, op: Operation, allowLegacy: bool)
    requires Undoes(q, op, allowLegacy)
    ensures InverseOf(q, op, allowLegacy)
  {
  }

  function OperationsIn(plan: Option<Plan>): seq<Operation> { if plan.Some? then plan.value.operations else [] }

  /** The inverses' ids come from the ids of what they undo. */
  predicate MarksCompensated(ids: IdFactory, qs: seq<Operation>, ops: seq<Operation>) {
    |qs| == |ops| && forall i :: 0 <= i < |ops| ==>
                       qs[i].operationId == ids.OperationId(ops[|ops| - 1 - i].operationId + ":compensate")
  }

  lemma MarksOneMore(ids: IdFactory, qs: seq<Operation>, ops: seq<Operation>, q: Operation, op: Operation)
    requires MarksCompensated(ids, qs, ops) && q.operationId == ids.OperationId(op.operationId + ":compensate")
    ensures MarksCompensated(ids, qs + [q], [op] + ops)
  {
  }

  lemma {:induction false} InverseIds(ids: IdFactory, ops: seq<Operation>, allowLegacy: bool)
    requires InvertAll(ids, ops, allowLegacy).Ok?
    ensures MarksCompensated(ids, InvertAll(ids, ops, allowLegacy).value.inverses, Keep(ops, true))
  {
    if ops != [] {
      InverseIds(ids, ops[1..], allowLegacy);
      var later, op := InvertAll(ids, ops[1..], allowLegacy).value, ops[0];
      if Compensable(op) {
        MarksOneMore(ids, later.inverses, Keep(ops[1..], true),
                     Inverted(ids, op, InverseType(op.opType).value, InversePayload(op, allowLegacy).value), op);
      }
    }
  }

  /** The compensating plan holds the inverse of every operation but promotions, last operation
      first, and there is no plan exactly where that leaves none; the promotions are handed
      back, last first. */
  lemma CompensationByType(settings: Settings, plan: Plan, against: SnapshotArgument)
    requires plan.WellFormed() && CompensationOf(settings, plan, against).Ok?
    ensures var r := CompensationOf(settings, plan, against).value;
            var qs, ops := OperationsIn(r.plan), Filter(plan.operations, Reversed());
            && (r.plan.None? <==> ops == [])
            && InversesOf(qs, ops, settings.allowLegacy) && MarksCompensated(settings.ids, qs, ops)
            && ReverseOf(r.nonCompensable, Filter(plan.operations, Promotes()))
  {
    HoldsInverses(settings, plan, against);
    InversesAre(settings.ids, plan.operations, settings.allowLegacy);
  }

  lemma InversesAre(ids: IdFactory, all: seq<Operation>, allowLegacy: bool)
    requires InvertAll(ids, all, allowLegacy).Ok?
    ensures var qs, ops := InvertAll(ids, all, allowLegacy).value.inverses, Filter(all, Reversed());
            && InversesOf(qs, ops, allowLegacy) && MarksCompensated(ids, qs, ops)
            && ReverseOf(InvertAll(ids, all, allowLegacy).value.rest, Filter(all, Promotes()))
  {
    KeepIsFilter(all);
    InvertAllStructure(ids, all, allowLegacy);
    InverseIds(ids, all, allowLegacy);
    AllInverse(InvertAll(ids, all, allowLegacy).value.inverses, Filter(all, Reversed()), allowLegacy);
  }

  lemma AllInverse(qs: seq<Operation>, ops: seq<Operation>, allowLegacy: bool)
    requires UndoesAll(qs, ops, allowLegacy)
    ensures InversesOf(qs, ops, allowLegacy)
  {
    forall i | 0 <= i < |ops| ensures InverseOf(qs[i], ops[|ops| - 1 - i], allowLegacy) {
      UndoingIsInverse(qs[i], ops[|ops| - 1 - i], allowLegacy);
    }
  }

  lemma HoldsInverses(settings: Settings, plan: Plan, against: SnapshotArgument)
    requires plan.WellFormed() && CompensationOf(settings, plan, against).Ok?
    ensures InvertAll(settings.ids, plan.operations, settings.allowLegacy).Ok?
    ensures var r, split := CompensationOf(settings, plan, against).value,
                            InvertAll(settings.ids, plan.operations, settings.allowLegacy).value;
            && OperationsIn(r.plan) == split.inverses && r.nonCompensable == split.rest
            && (r.plan.None? <==> split.inverses == [])
  {
  }

  /** There is nothing to take the operation back with. */
  predicate Unusable(op: Operation, allowLegacy: bool) {
    op.opType != PROMOTE_ONTOLOGY_TERM && (op.reversal.MalformedInverse? || (op.reversal.Legacy? && !allowLegacy))
  }

  /** The last of the unusable operations, which the walk meets first. */
  predicate LastUnusable(ops: seq<Operation>, k: nat, allowLegacy: bool) {
    && k < |ops| && Unusable(ops[k], allowLegacy)
    && forall i :: k < i < |ops| ==> !Unusable(ops[i], allowLegacy)
  }

  lemma FirstFails(ids: IdFactory, ops: seq<Operation>, allowLegacy: bool)
    requires ops != [] && Unusable(ops[0], allowLegacy) && InvertAll(ids, ops[1..], allowLegacy).Ok?
    ensures InvertAll(ids, ops, allowLegacy) ==
            Err(if ops[0].reversal.MalformedInverse? then MalformedPayload(ops[0].operationId)
                else NoInversePayload(ops[0].operationId))
  {
  }

  lemma LaterUnusable(ops: seq<Operation>, k: nat, allowLegacy: bool)
    requires LastUnusable(ops, k, allowLegacy)
    ensures if k > 0 then LastUnusable(ops[1..], k - 1, allowLegacy) && ops[1..][k - 1] == ops[k]
            else forall i :: 0 <= i < |ops| - 1 ==> !Unusable(ops[1..][i], allowLegacy)
  {
    assert forall i :: 0 <= i < |ops| - 1 ==> ops[1..][i] == ops[i + 1];
  }

  lemma {:induction false} InversionError(ids: IdFactory, ops: seq<Operation>, k: nat, allowLegacy: bool)
    requires LastUnusable(ops, k, allowLegacy)
    ensures InvertAll(ids, ops, allowLegacy) ==
            Err(if ops[k].reversal.MalformedInverse? then MalformedPayload(ops[k].operationId)
                else NoInversePayload(ops[k].operationId))
  {
    LaterUnusable(ops, k, allowLegacy);
    if k > 0 {
      InversionError(ids, ops[1..], k - 1, allowLegacy);
    } else {
      UsableInverts(ids, ops[1..], allowLegacy);
      FirstFails(ids, ops, allowLegacy);
    }
  }

  lemma UsableInverts(ids: IdFactory, ops: seq<Operation>, allowLegacy: bool)
    requires forall i :: 0 <= i < |ops| ==> !Unusable(ops[i], allowLegacy)
    ensures InvertAll(ids, ops, allowLegacy).Ok?
  {
    InvertAllOkIff(ids, ops, allowLegacy);
    forall op <- ops ensures Compensable(op) ==> InversePayload(op, allowLegacy).Ok? {
      var i :| 0 <= i < |ops| && ops[i] == op;
      assert !Unusable(ops[i], allowLegacy);
    }
  }

  /** What a refused compensation says: first whether the epoch is one, then which operation is
      the last that cannot be taken back, and why. */
  lemma CompensationErrIff(settings: Settings, plan: Plan, against: SnapshotArgument)
    requires plan.WellFormed()
    ensures var r, ops, legacy := CompensationOf(settings, plan, against), plan.operations, settings.allowLegacy;
            var epoch := against.Whole? && against.n >= 0;
            && (r.Ok? <==> epoch && forall op <- ops :: !Unusable(op, legacy))
            && (r == Err(NotAnEpochError) <==> !epoch)
            && forall k :: epoch && 0 <= k < |ops| && LastUnusable(ops, k, legacy) ==>
                 r == Err(if ops[k].reversal.MalformedInverse? then MalformedPayload(ops[k].operationId)
                          else NoInversePayload(ops[k].operationId))
  {
    var r, ops, legacy := CompensationOf(settings, plan, against), plan.operations, settings.allowLegacy;
    CompensationOkIff(settings, plan, against);
    assert forall op <- ops :: (Compensable(op) ==> InversePayload(op, legacy).Ok?) <==> !Unusable(op, legacy);
    forall k | 0 <= k < |ops| && LastUnusable(ops, k, legacy)
      ensures InvertAll(settings.ids, ops, legacy) ==
              Err(if ops[k].reversal.MalformedInverse? then MalformedPayload(ops[k].operationId)
                  else NoInversePayload(ops[k].operationId))
    {
      InversionError(settings.ids, ops, k, legacy);
    }
    NoEpochError(settings.ids, ops, legacy);
  }

  lemma {:induction false} NoEpochError(ids: IdFactory, ops: seq<Operation>, allowLegacy: bool)
    ensures InvertAll(ids, ops, allowLegacy) != Err(NotAnEpochError)
  {
    if ops != [] { NoEpochError(ids, ops[1..], allowLegacy); }
  }

  /** Its other parts: the source's candidates and evidence, the epoch it is guarded at as its
      snapshot, and the source's snapshot guards' subjects in order, or the first candidate. */
  lemma CompensationKeepsParts(settings: Settings, plan: Plan, against: SnapshotArgument)
    requires plan.WellFormed()
    requires var r := CompensationOf(settings, plan, against); r.Ok? && r.value.plan.Some?
    ensures var comp := CompensationOf(settings, plan, against).value.plan.value;
            && comp.candidateIds == plan.candidateIds && comp.evidenceIds == plan.evidenceIds
            && comp.snapshotVersion == Decimal(against.n) && comp.policyVersion == settings.policyVersion
            && comp.planId == settings.ids.PlanId(plan.planId + ":compensate")
            && var guards := Filter(plan.preconditions, IsSnapshot());
            if guards == []
            then comp.preconditions == [Precondition(SnapshotVersion, plan.candidateIds[0], Decimal(against.n))]
            else |comp.preconditions| == |guards|
                 && forall i :: 0 <= i < |guards| ==>
                      comp.preconditions[i] == guards[i].(expected := Decimal(against.n))
  {
    RebasedAreGuards(plan.preconditions, Decimal(against.n));
  }

  function IsSnapshot(): Precondition -> bool { (p: Precondition) => p.kind == SnapshotVersion }

  lemma {:induction false} RebasedAppend(ps: seq<Precondition>, qs: seq<Precondition>, snapshot: string)
    ensures Rebased(ps + qs, snapshot) == Rebased(ps, snapshot) + Rebased(qs, snapshot)
  {
    if ps == [] {
      assert ps + qs == qs;
    } else {
      assert (ps + qs)[0] == ps[0] && (ps + qs)[1..] == ps[1..] + qs;
      RebasedAppend(ps[1..], qs, snapshot);
    }
  }

  lemma {:induction false} RebasedAreGuards(ps: seq<Precondition>, snapshot: string)
    ensures var guards := Filter(ps, IsSnapshot());
            && |Rebased(ps, snapshot)| == |guards|
            && forall i :: 0 <= i < |guards| ==> Rebased(ps, snapshot)[i] == guards[i].(expected := snapshot)
  {
    if ps != [] {
      var n := |ps| - 1;
      assert ps == ps[..n] + [ps[n]] && [ps[n]][1..] == [];
      RebasedAreGuards(ps[..n], snapshot);
      RebasedAppend(ps[..n], [ps[n]], snapshot);
    }
  }

  /* ---------- compensating twice ---------- */

  /** The type an operation comes back with: its own, except that a creation comes back as a
      restoration. */
  function Redone(t: OpType): OpType { if t == CREATE_IDENTITY then RESTORE_IDENTITY else t }

  lemma RedoneIsInverseTwice(t: OpType)
    requires InverseType(t).Some?
    ensures InverseType(InverseType(t).value) == Some(Redone(t))
  {
  }

  lemma {:induction false} KeepAll(ops: seq<Operation>)
    requires forall op <- ops :: Compensable(op)
    ensures Keep(ops, true) == ops && Keep(ops, false) == []
  {
    if ops != [] {
      KeepAll(ops[1..]);
      assert ops == [ops[0]] + ops[1..];
    }
  }

  lemma UndoersAreCompensable(qs: seq<Operation>, ps: seq<Operation>, allowLegacy: bool)
    requires UndoesAll(qs, ps, allowLegacy)
    ensures forall q <- qs :: Compensable(q) && InversePayload(q, allowLegacy).Ok?
  {
    forall q <- qs ensures Compensable(q) && InversePayload(q, allowLegacy).Ok? {
      var i :| 0 <= i < |qs| && qs[i] == q;
      assert Undoes(qs[i], ps[|ps| - 1 - i], allowLegacy);
    }
  }

  predicate RedoesAll(ops: seq<Operation>, originals: seq<Operation>) {
    && |ops| == |originals|
    && forall i :: 0 <= i < |ops| ==>
         ops[i].payload == originals[i].payload && ops[i].opType == Redone(originals[i].opType)
  }

  lemma UndoneTwice(rs: seq<Operation>, qs: seq<Operation>, ps: seq<Operation>, allowLegacy: bool)
    requires UndoesAll(qs, ps, allowLegacy) && UndoesAll(rs, qs, allowLegacy)
    ensures RedoesAll(rs, ps)
  {
    forall i | 0 <= i < |rs| ensures rs[i].payload == ps[i].payload && rs[i].opType == Redone(ps[i].opType) {
      assert Undoes(rs[i], qs[|qs| - 1 - i], allowLegacy);
      assert Undoes(qs[|qs| - 1 - i], ps[i], allowLegacy);
    }
  }

  /** A compensation compensates in full. */
  lemma CompensationIsCompensable(settings: Settings, qs: seq<Operation>, ps: seq<Operation>)
    requires UndoesAll(qs, ps, settings.allowLegacy)
    ensures var r := InvertAll(settings.ids, qs, settings.allowLegacy);
            r.Ok? && r.value.rest == [] && UndoesAll(r.value.inverses, qs, settings.allowLegacy)
  {
    UndoersAreCompensable(qs, ps, settings.allowLegacy);
    InvertAllOkIff(settings.ids, qs, settings.allowLegacy);
    KeepAll(qs);
    InvertAllStructure(settings.ids, qs, settings.allowLegacy);
  }

  /** Compensating a compensation is never refused, leaves nothing out, and gives back the
      compensable operations' payloads in their original order. */
  lemma CompensatingTwice(settings: Settings, plan: Plan, first: SnapshotArgument, second: nat)
    requires plan.WellFormed()
    requires var r := CompensationOf(settings, plan, first); r.Ok? && r.value.plan.Some?
    ensures var comp := CompensationOf(settings, plan, first).value.plan.value;
            && comp.WellFormed()
            && var again := CompensationOf(settings, comp, Whole(second));
            && again.Ok? && again.value.nonCompensable == [] && again.value.plan.Some?
            && RedoesAll(again.value.plan.value.operations, Keep(plan.operations, true))
  {
    var ps := Keep(plan.operations, true);
    InvertAllStructure(settings.ids, plan.operations, settings.allowLegacy);
    var qs := CompensationOf(settings, plan, first).value.plan.value.operations;
    CompensationIsCompensable(settings, qs, ps);
    UndoneTwice(InvertAll(settings.ids, qs, settings.allowLegacy).value.inverses, qs, ps, settings.allowLegacy);
  }
}
