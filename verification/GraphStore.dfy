/** The graph store: the adapter of tests/kgcs/e2e_harness.py, which applies status changes
    and attaches by assertion id, next to the reference adapter, which appends and applies
    identity revocations.  Both are atomic: a batch applies as a whole or not at all. */
module GraphStore {
  import opened Wrappers
  import opened Contracts
  import opened Numerals

  /** What an adapter can do.  `strict` says whether a status change naming an absent record
      is refused or ignored. */
  datatype Adapter = Adapter(implemented: set<OpType>, upserts: bool, strict: bool)

  const E2E: Adapter := Adapter({CREATE_IDENTITY, ATTACH_ASSERTION, RETRACT_ASSERTION}, true, true)

  const REFERENCE: Adapter :=
    Adapter({CREATE_IDENTITY, ATTACH_ASSERTION, REVOKE_IDENTITY, RESTORE_IDENTITY}, false, true)

  /** All rows in order of arrival; a subject's list is the part of it with that subject. */
  datatype Tables = Tables(rows: seq<Assertion>, entities: map<Id, Entity>)

  datatype GraphState = GraphState(tables: Tables, versions: map<Id, nat>, epoch: nat)

  /* ---------- single writes ---------- */

  /** The first row of the subject with this id; |rows| if there is none. */
  function RowOf(rows: seq<Assertion>, subject: Id, id: Id): (i: nat)
    ensures i <= |rows|
    ensures i < |rows| ==> rows[i].subject == subject && rows[i].assertionId == id
    ensures forall k :: 0 <= k < i ==> !(rows[k].subject == subject && rows[k].assertionId == id)
  {
    if rows == [] then 0
    else if rows[0].subject == subject && rows[0].assertionId == id then 0
    else 1 + RowOf(rows[1..], subject, id)
  }

  /** The first row with this id, whatever its subject. */
  function RowWithId(rows: seq<Assertion>, id: Id): (i: nat)
    ensures i <= |rows|
    ensures i < |rows| ==> rows[i].assertionId == id
    ensures forall k :: 0 <= k < i ==> rows[k].assertionId != id
  {
    if rows == [] then 0
    else if rows[0].assertionId == id then 0
    else 1 + RowWithId(rows[1..], id)
  }

  lemma RowOfIs(rows: seq<Assertion>, subject: Id, id: Id, k: nat)
    requires k <= |rows| && (k < |rows| ==> rows[k].subject == subject && rows[k].assertionId == id)
    requires forall i :: 0 <= i < k ==> !(rows[i].subject == subject && rows[i].assertionId == id)
    ensures RowOf(rows, subject, id) == k
  {
    var i := RowOf(rows, subject, id);
    assert !(i < k) && !(k < i);
  }

  lemma RowWithIdIs(rows: seq<Assertion>, id: Id, k: nat)
    requires k <= |rows| && (k < |rows| ==> rows[k].assertionId == id)
    requires forall i :: 0 <= i < k ==> rows[i].assertionId != id
    ensures RowWithId(rows, id) == k
  {
    var i := RowWithId(rows, id);
    assert !(i < k) && !(k < i);
  }

  function Attach(upserts: bool, rows: seq<Assertion>, a: Assertion): seq<Assertion> {
    var i := RowOf(rows, a.subject, a.assertionId);
    if upserts && i < |rows| then rows[i := a] else rows + [a]
  }

  /** Retires a row.  Without a successor an existing pointer stays as it is. */
  function Retired(a: Assertion, at: Instant, successor: Option<Id>): Assertion {
    a.(status := SUPERSEDED, supersededAt := Some(at),
       supersededBy := if successor.Some? then successor else a.supersededBy)
  }

  function MarkSuperseded(rows: seq<Assertion>, id: Id, at: Instant, successor: Option<Id>): seq<Assertion> {
    var i := RowWithId(rows, id);
    if i < |rows| then rows[i := Retired(rows[i], at, successor)] else rows
  }

  /* ---------- one operation ---------- */

  datatype Step = Ran(tables: Tables) | Unimplemented | Faulted | Rejected

  /** The identity an operation's payload names, if it names one. */
  function NamedIdentity(p: Payload): Option<Id> {
    match p
    case EntityDump(e) => Some(e.identityId)
    case IdentityRef(id, _) => Some(id)
    case _ => None
  }

  function ApplyRetract(adapter: Adapter, t: Tables, p: Payload): Step {
    match p
    case StatusChange(id, _, newStatus, at, successor) =>
      if newStatus.None? then Faulted
      else if newStatus.value != SUPERSEDED then Unimplemented
      else if at.None? || successor == Some(id) then Faulted
      else if adapter.strict && RowWithId(t.rows, id) == |t.rows| then Faulted
      else Ran(t.(rows := MarkSuperseded(t.rows, id, at.value, successor)))
    case _ => Faulted
  }

  function ChangeIdentity(t: Tables, p: Payload, status: Status): Step {
    match NamedIdentity(p)
    case None => Faulted
    case Some(id) =>
      if id in t.entities then Ran(t.(entities := t.entities[id := t.entities[id].(status := status)]))
      else Rejected
  }

  function ApplyOp(adapter: Adapter, t: Tables, op: Operation, newEpoch: nat): Step {
    if op.opType !in adapter.implemented then Unimplemented
    else match op.opType
      case CREATE_IDENTITY =>
        if !op.payload.EntityDump? then Faulted
        else
          var e := op.payload.entity.(epoch := newEpoch);
          Ran(t.(entities := t.entities[e.identityId := e]))
      case ATTACH_ASSERTION =>
        if !op.payload.AssertionDump? then Faulted
        else Ran(t.(rows := Attach(adapter.upserts, t.rows, op.payload.assertion.(epoch := newEpoch))))
      case RETRACT_ASSERTION => ApplyRetract(adapter, t, op.payload)
      case REVOKE_IDENTITY => ChangeIdentity(t, op.payload, REVOKED)
      case RESTORE_IDENTITY => ChangeIdentity(t, op.payload, ACTIVE)
      case _ => Unimplemented
  }

  /* ---------- what each operation does ---------- */

  /** Which operations an adapter lacks: those of a type it does not implement, and a status
      change to anything but superseded. */
  predicate Lacks(adapter: Adapter, op: Operation) {
    || op.opType !in adapter.implemented
    || op.opType in {MERGE_IDENTITIES, SPLIT_IDENTITY, REASSIGN_ASSERTION, PROMOTE_ONTOLOGY_TERM}
    || IsOtherChange(op)
  }

  /** What it cannot carry out: a payload of another shape, a status change without its fields
      or to itself, and, for a strict adapter, one of a record that is not there. */
  predicate Malformed(adapter: Adapter, t: Tables, op: Operation) {
    match op.opType
    case CREATE_IDENTITY => !op.payload.EntityDump?
    case ATTACH_ASSERTION => !op.payload.AssertionDump?
    case RETRACT_ASSERTION =>
      || !op.payload.StatusChange? || op.payload.newStatus == None || op.payload.supersededAt == None
      || op.payload.supersededBy == Some(op.payload.assertionId)
      || (adapter.strict && forall a <- t.rows :: a.assertionId != op.payload.assertionId)
    case _ => !op.payload.EntityDump? && !op.payload.IdentityRef?
  }

  /** An operation on an identity that is not there is rejected. */
  predicate NamesNobody(t: Tables, op: Operation) {
    && (op.opType == REVOKE_IDENTITY || op.opType == RESTORE_IDENTITY)
    && match op.payload
       case EntityDump(e) => e.identityId !in t.entities
       case IdentityRef(id, _) => id !in t.entities
       case _ => false
  }

  /** When an operation does not run, and how it fails. */
  lemma StepIff(adapter: Adapter, t: Tables, op: Operation, newEpoch: nat)
    ensures var step := ApplyOp(adapter, t, op, newEpoch);
            && (step == Unimplemented <==> Lacks(adapter, op))
            && (step == Faulted <==> !Lacks(adapter, op) && Malformed(adapter, t, op))
            && (step == Rejected <==> !Lacks(adapter, op) && NamesNobody(t, op))
  {
    if op.opType == RETRACT_ASSERTION && op.payload.StatusChange? {
      var i := RowWithId(t.rows, op.payload.assertionId);
      if i < |t.rows| { assert t.rows[i] in t.rows; }
    }
  }

  /** What the two stores apply, wherever it is well formed: creations and attaches both; status
      changes the one of the harness; revocations and restorations the reference store.  Neither
      takes a status change of a record that is not there. */
  lemma StoresApply(t: Tables, op: Operation, newEpoch: nat)
    ensures ApplyOp(E2E, t, op, newEpoch) == Unimplemented <==>
            op.opType !in {CREATE_IDENTITY, ATTACH_ASSERTION, RETRACT_ASSERTION} || IsOtherChange(op)
    ensures ApplyOp(REFERENCE, t, op, newEpoch) == Unimplemented <==>
            op.opType !in {CREATE_IDENTITY, ATTACH_ASSERTION, REVOKE_IDENTITY, RESTORE_IDENTITY}
    ensures ApplyOp(E2E, t, op, newEpoch).Ran? && op.opType == RETRACT_ASSERTION ==>
              exists a <- t.rows :: a.assertionId == op.payload.assertionId
  {
    StepIff(E2E, t, op, newEpoch);
    StepIff(REFERENCE, t, op, newEpoch);
  }

  /** A status change to anything but superseded. */
  predicate IsOtherChange(op: Operation) {
    op.opType == RETRACT_ASSERTION && op.payload.StatusChange? && op.payload.newStatus in {Some(ACTIVE), Some(REVOKED)}
  }

  /** The first row with this id, of this subject or of any. */
  predicate IsFirstRow(rows: seq<Assertion>, subject: Option<Id>, id: Id, i: nat) {
    && i < |rows| && rows[i].assertionId == id && (subject.Some? ==> rows[i].subject == subject.value)
    && forall k :: 0 <= k < i ==> rows[k].assertionId != id || (subject.Some? && rows[k].subject != subject.value)
  }

  /** An attach stamps the commit's epoch on the record, and puts it in place of the subject's
      first row with its id, on an adapter that attaches by id, or else behind all rows. */
  lemma AttachStep(adapter: Adapter, t: Tables, op: Operation, newEpoch: nat)
    requires op.opType == ATTACH_ASSERTION && ApplyOp(adapter, t, op, newEpoch).Ran?
    ensures var next, a := ApplyOp(adapter, t, op, newEpoch).tables, op.payload.assertion.(epoch := newEpoch);
            && next.entities == t.entities
            && (adapter.upserts ==>
                  forall i :: 0 <= i < |t.rows| && IsFirstRow(t.rows, Some(a.subject), a.assertionId, i) ==>
                    next.rows == t.rows[i := a])
            && (!adapter.upserts
                || (forall i :: 0 <= i < |t.rows| ==> !IsFirstRow(t.rows, Some(a.subject), a.assertionId, i)) ==>
                  next.rows == t.rows + [a])
  {
    var a := op.payload.assertion;
    var k := RowOf(t.rows, a.subject, a.assertionId);
    forall i | 0 <= i < |t.rows| && IsFirstRow(t.rows, Some(a.subject), a.assertionId, i) ensures i == k {
      RowOfIs(t.rows, a.subject, a.assertionId, i);
    }
    assert k < |t.rows| ==> IsFirstRow(t.rows, Some(a.subject), a.assertionId, k);
  }

  /** A status change retires the first row with the id, whoever's it is: it notes the time and
      the successor named, and without one it leaves the pointer there was.  It touches nothing
      else, and nothing at all where there is no such row. */
  lemma RetractStep(adapter: Adapter, t: Tables, op: Operation, newEpoch: nat)
    requires op.opType == RETRACT_ASSERTION && ApplyOp(adapter, t, op, newEpoch).Ran?
    ensures var next, id := ApplyOp(adapter, t, op, newEpoch).tables, op.payload.assertionId;
            && next.entities == t.entities && |next.rows| == |t.rows|
            && forall i :: 0 <= i < |t.rows| ==>
                 if IsFirstRow(t.rows, None, id, i)
                 then var a, b := t.rows[i], next.rows[i];
                      && b.status == SUPERSEDED && b.supersededAt == op.payload.supersededAt
                      && b.supersededBy ==
                         (if op.payload.supersededBy == None then a.supersededBy else op.payload.supersededBy)
                      && b == a.(status := b.status, supersededAt := b.supersededAt, supersededBy := b.supersededBy)
                 else next.rows[i] == t.rows[i]
  {
    var k := RowWithId(t.rows, op.payload.assertionId);
    forall i | 0 <= i < |t.rows| && IsFirstRow(t.rows, None, op.payload.assertionId, i) ensures i == k {
      RowWithIdIs(t.rows, op.payload.assertionId, i);
    }
    assert k < |t.rows| ==> IsFirstRow(t.rows, None, op.payload.assertionId, k);
  }

  /** A creation stores the entity under its id with the commit's epoch; a revocation and a
      restoration change the status of the identity they name; none of them touches a row or
      another identity. */
  lemma IdentityStep(adapter: Adapter, t: Tables, op: Operation, newEpoch: nat)
    requires op.opType in {CREATE_IDENTITY, REVOKE_IDENTITY, RESTORE_IDENTITY}
    requires ApplyOp(adapter, t, op, newEpoch).Ran?
    ensures var next := ApplyOp(adapter, t, op, newEpoch).tables;
            var id := if op.payload.EntityDump? then op.payload.entity.identityId else op.payload.identityId;
            && next.rows == t.rows && next.entities.Keys == t.entities.Keys + {id}
            && (forall other <- t.entities :: other != id ==> next.entities[other] == t.entities[other])
            && if op.opType == CREATE_IDENTITY then next.entities[id] == op.payload.entity.(epoch := newEpoch)
               else id in t.entities
                    && next.entities[id] ==
                       t.entities[id].(status := if op.opType == REVOKE_IDENTITY then REVOKED else ACTIVE)
  {
  }

  /* ---------- a list of operations ---------- */

  function RunOps(adapter: Adapter, t: Tables, ops: seq<Operation>, newEpoch: nat): Step
    decreases ops
  {
    if ops == [] then Ran(t)
    else
      match ApplyOp(adapter, t, ops[0], newEpoch)
      case Ran(next) => RunOps(adapter, next, ops[1..], newEpoch)
      case stop => stop
  }

  lemma {:induction false} RunOpsAppend(adapter: Adapter, t: Tables, ops: seq<Operation>, more: seq<Operation>,
                                        newEpoch: nat)
    requires RunOps(adapter, t, ops, newEpoch).Ran?
    ensures RunOps(adapter, t, ops + more, newEpoch) ==
            RunOps(adapter, RunOps(adapter, t, ops, newEpoch).tables, more, newEpoch)
    decreases ops
  {
    if ops == [] {
      assert ops + more == more;
    } else {
      assert (ops + more)[1..] == ops[1..] + more;
      RunOpsAppend(adapter, ApplyOp(adapter, t, ops[0], newEpoch).tables, ops[1..], more, newEpoch);
    }
  }

  /** No row went or moved, and every row still records what it recorded. */
  predicate RowsKept(rows: seq<Assertion>, later: seq<Assertion>) {
    && |rows| <= |later|
    && forall i :: 0 <= i < |rows| ==>
         rows[i].subject == later[i].subject && rows[i].assertionId == later[i].assertionId
  }

  /** No operation of any adapter removes a row, reorders rows, or changes what a row is the
      record of. */
  lemma {:induction false} RunOpsKeepsRows(adapter: Adapter, t: Tables, ops: seq<Operation>, newEpoch: nat)
    requires RunOps(adapter, t, ops, newEpoch).Ran?
    ensures RowsKept(t.rows, RunOps(adapter, t, ops, newEpoch).tables.rows)
    decreases ops
  {
    if ops != [] {
      var next := ApplyOp(adapter, t, ops[0], newEpoch).tables;
      assert RowsKept(t.rows, next.rows);
      RunOpsKeepsRows(adapter, next, ops[1..], newEpoch);
    }
  }

  /* ---------- a batch ---------- */

  /** The subject whose version a successful operation advances. */
  function Touched(op: Operation): Id {
    match op.payload
    case AssertionDump(a) => a.subject
    case EntityDump(e) => e.identityId
    case IdentityRef(id, _) => id
    case StatusChange(_, subject, _, _, _) => subject
    case Fields(_) => ""
  }

  function VersionOf(versions: map<Id, nat>, id: Id): nat {
    if id in versions then versions[id] else 0
  }

  function Bumped(versions: map<Id, nat>, ops: seq<Operation>): map<Id, nat>
    decreases ops
  {
    if ops == [] then versions
    else
      var id := Touched(ops[0]);
      Bumped(versions[id := VersionOf(versions, id) + 1], ops[1..])
  }

  /** The store checks entity versions and lets every other kind pass. */
  predicate Holds(versions: map<Id, nat>, p: Precondition) {
    p.kind == EntityVersion ==> p.expected == Decimal(VersionOf(versions, p.subject))
  }

  function FailedOf(versions: map<Id, nat>, ps: seq<Precondition>): seq<Precondition> {
    if ps == [] then []
    else (if Holds(versions, ps[0]) then [] else [ps[0]]) + FailedOf(versions, ps[1..])
  }

  datatype CommitResult =
    | Committed(newEpoch: nat)
    | Failed(preconditions: seq<Precondition>)
    | Refused
    | NotImplementedRaised
    | ErrorRaised

  function Apply(adapter: Adapter, g: GraphState, ops: seq<Operation>, ps: seq<Precondition>): (GraphState,
                 CommitResult)
  {
    if FailedOf(g.versions, ps) != [] then (g, Failed(FailedOf(g.versions, ps)))
    else
      match RunOps(adapter, g.tables, ops, g.epoch + 1)
      case Ran(t) => (GraphState(t, Bumped(g.versions, ops), g.epoch + 1), Committed(g.epoch + 1))
      case Unimplemented => (g, NotImplementedRaised)
      case Faulted => (g, ErrorRaised)
      case Rejected => (g, Refused)
  }

  /** The operation is about the subject or the identity. */
  predicate IsAbout(op: Operation, id: Id) {
    match op.payload
    case AssertionDump(a) => a.subject == id
    case EntityDump(e) => e.identityId == id
    case IdentityRef(named, _) => named == id
    case StatusChange(_, subject, _, _, _) => subject == id
    case Fields(_) => false
  }

  /** How many of the operations are. */
  function CountAbout(ops: seq<Operation>, id: Id): nat {
    if ops == [] then 0 else (if IsAbout(ops[0], id) then 1 else 0) + CountAbout(ops[1..], id)
  }

  lemma {:induction false} BumpedCounts(adapter: Adapter, t: Tables, versions: map<Id, nat>, ops: seq<Operation>,
                                        newEpoch: nat, id: Id)
    requires RunOps(adapter, t, ops, newEpoch).Ran?
    ensures VersionOf(Bumped(versions, ops), id) == VersionOf(versions, id) + CountAbout(ops, id)
    decreases ops
  {
    if ops != [] {
      var touched := Touched(ops[0]);
      BumpedCounts(adapter, ApplyOp(adapter, t, ops[0], newEpoch).tables,
                   versions[touched := VersionOf(versions, touched) + 1], ops[1..], newEpoch, id);
    }
  }

  /** A commit advances every subject's and every identity's version by the number of
      operations about it, and the epoch by one; anything else changes nothing. */
  lemma VersionsCount(adapter: Adapter, g: GraphState, ops: seq<Operation>, ps: seq<Precondition>, id: Id)
    ensures var (next, result) := Apply(adapter, g, ops, ps);
            && next.epoch == g.epoch + (if result.Committed? then 1 else 0)
            && VersionOf(next.versions, id) ==
               VersionOf(g.versions, id) + if result.Committed? then CountAbout(ops, id) else 0
  {
    if RunOps(adapter, g.tables, ops, g.epoch + 1).Ran? {
      BumpedCounts(adapter, g.tables, g.versions, ops, g.epoch + 1, id);
    }
  }

  /* ---------- the store object ---------- */

  class Store {
    const adapter: Adapter
    var rows: seq<Assertion>
    var entities: map<Id, Entity>
    var versions: map<Id, nat>
    var epoch: nat

    ghost function State(): GraphState
      reads this
    {
      GraphState(Tables(rows, entities), versions, epoch)
    }

    constructor (adapter: Adapter)
      ensures this.adapter == adapter
      ensures State() == GraphState(Tables([], map[]), map[], 0)
    {
      this.adapter := adapter;
      rows, entities, versions, epoch := [], map[], map[], 0;
    }

    /** Attaches by assertion id where the adapter does: an existing row is overwritten in
        its slot. */
    method AttachAssertion(a: Assertion)
      modifies `rows
      ensures rows == Attach(adapter.upserts, old(rows), a)
    {
      if adapter.upserts {
        for i := 0 to |rows|
          invariant rows == old(rows)
          invariant forall k :: 0 <= k < i ==> !(rows[k].subject == a.subject && rows[k].assertionId == a.assertionId)
        {
          if rows[i].subject == a.subject && rows[i].assertionId == a.assertionId {
            rows := rows[i := a];
            return;
          }
        }
      }
      rows := rows + [a];
    }

    method Retract(p: Payload) returns (step: Step)
      modifies `rows
      ensures step == ApplyRetract(adapter, old(Tables(rows, entities)), p)
      ensures rows == if step.Ran? then step.tables.rows else old(rows)
    {
      match p
      case StatusChange(id, _, newStatus, at, successor) =>
        if newStatus.None? { return Faulted; }
        if newStatus.value != SUPERSEDED { return Unimplemented; }
        if at.None? || successor == Some(id) { return Faulted; }
        var i := 0;
        while i < |rows| && rows[i].assertionId != id
          invariant i <= |rows| && rows == old(rows)
          invariant forall k :: 0 <= k < i ==> rows[k].assertionId != id
        {
          i := i + 1;
        }
        if i < |rows| {
          rows := rows[i := Retired(rows[i], at.value, successor)];
        } else if adapter.strict {
          return Faulted;
        }
        return Ran(Tables(rows, entities));
      case _ =>
        return Faulted;
    }

    method ApplyOne(op: Operation, newEpoch: nat) returns (step: Step)
      modifies `rows, `entities
      ensures step == ApplyOp(adapter, old(Tables(rows, entities)), op, newEpoch)
      ensures step.Ran? ==> Tables(rows, entities) == step.tables
    {
      if op.opType !in adapter.implemented { return Unimplemented; }
      match op.opType
      case CREATE_IDENTITY =>
        if !op.payload.EntityDump? { return Faulted; }
        var e := op.payload.entity.(epoch := newEpoch);
        entities := entities[e.identityId := e];
        return Ran(Tables(rows, entities));
      case ATTACH_ASSERTION =>
        if !op.payload.AssertionDump? { return Faulted; }
        AttachAssertion(op.payload.assertion.(epoch := newEpoch));
        return Ran(Tables(rows, entities));
      case RETRACT_ASSERTION =>
        step := Retract(op.payload);
      case REVOKE_IDENTITY | RESTORE_IDENTITY =>
        var status := if op.opType == REVOKE_IDENTITY then REVOKED else ACTIVE;
        step := ChangeIdentity(Tables(rows, entities), op.payload, status);
        if step.Ran? { entities := step.tables.entities; }
      case _ =>
        return Unimplemented;
    }

    method BumpVersions(ops: seq<Operation>)
      modifies `versions
      ensures versions == Bumped(old(versions), ops)
    {
      for i := 0 to |ops|
        invariant Bumped(old(versions), ops) == Bumped(versions, ops[i..])
      {
        var id := Touched(ops[i]);
        assert ops[i..][1..] == ops[i + 1..];
        versions := versions[id := VersionOf(versions, id) + 1];
      }
    }

    /** Applies a batch as a whole: any failure puts back the state taken at the start. */
    method ApplyBatch(ops: seq<Operation>, preconditions: seq<Precondition>) returns (result: CommitResult)
      modifies this
      ensures (State(), result) == Apply(adapter, old(State()), ops, preconditions)
    {
      var failed := FailedOf(versions, preconditions);
      if failed != [] {
        return Failed(failed);
      }
      var newEpoch := epoch + 1;
      var savedRows, savedEntities := rows, entities;
      for i := 0 to |ops|
        invariant versions == old(versions) && epoch == old(epoch)
        invariant RunOps(adapter, Tables(savedRows, savedEntities), ops, newEpoch) ==
                  RunOps(adapter, Tables(rows, entities), ops[i..], newEpoch)
      {
        assert ops[i..][1..] == ops[i + 1..];
        var step := ApplyOne(ops[i], newEpoch);
        if !step.Ran? {
          rows, entities := savedRows, savedEntities;
          return match step case Unimplemented => NotImplementedRaised case Rejected => Refused case _ => ErrorRaised;
        }
      }
      BumpVersions(ops);
      epoch := newEpoch;
      return Committed(newEpoch);
    }
  }
}
