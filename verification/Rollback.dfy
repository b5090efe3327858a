/** Committing a plan, its compensation, and the compensation of that: what each of the
    three commits leaves in the graph. */
module Rollback {
  import opened Wrappers
  import opened Contracts
  import opened Numerals
  import opened GraphStore
  import opened Execution
  import opened Compensation

  /* ---------- tables without their commit epochs ---------- */

  function Blank(a: Assertion): Assertion { a.(epoch := 0) }

  function BlankRows(rows: seq<Assertion>): (r: seq<Assertion>)
    ensures |r| == |rows| && forall i :: 0 <= i < |rows| ==> r[i] == Blank(rows[i])
  {
    seq(|rows|, i requires 0 <= i < |rows| => Blank(rows[i]))
  }

  function BlankEntities(entities: map<Id, Entity>): map<Id, Entity> {
    map id <- entities :: entities[id].(epoch := 0)
  }

  function Erased(t: Tables): Tables { Tables(BlankRows(t.rows), BlankEntities(t.entities)) }

  function ErasedStep(s: Step): Step { if s.Ran? then Ran(Erased(s.tables)) else s }

  lemma LookupsIgnoreEpochs(rows: seq<Assertion>, subject: Id, id: Id)
    ensures RowOf(BlankRows(rows), subject, id) == RowOf(rows, subject, id)
    ensures RowWithId(BlankRows(rows), id) == RowWithId(rows, id)
  {
    RowOfIs(BlankRows(rows), subject, id, RowOf(rows, subject, id));
    RowWithIdIs(BlankRows(rows), id, RowWithId(rows, id));
  }

  lemma AttachIgnoresEpochs(upserts: bool, rows: seq<Assertion>, a: Assertion)
    ensures BlankRows(Attach(upserts, rows, a)) == Attach(upserts, BlankRows(rows), Blank(a))
  {
    LookupsIgnoreEpochs(rows, a.subject, a.assertionId);
  }

  lemma MarkIgnoresEpochs(rows: seq<Assertion>, id: Id, at: Instant, successor: Option<Id>)
    ensures BlankRows(MarkSuperseded(rows, id, at, successor)) == MarkSuperseded(BlankRows(rows), id, at, successor)
  {
    LookupsIgnoreEpochs(rows, "", id);
  }

  lemma RetractIgnoresEpochs(adapter: Adapter, t: Tables, p: Payload)
    ensures ErasedStep(ApplyRetract(adapter, t, p)) == ApplyRetract(adapter, Erased(t), p)
  {
    if p.StatusChange? {
      LookupsIgnoreEpochs(t.rows, "", p.assertionId);
      if p.supersededAt.Some? { MarkIgnoresEpochs(t.rows, p.assertionId, p.supersededAt.value, p.supersededBy); }
    }
  }

  lemma IdentityChangeIgnoresEpochs(t: Tables, p: Payload, status: Status)
    ensures ErasedStep(ChangeIdentity(t, p, status)) == ChangeIdentity(Erased(t), p, status)
  {
    var id := NamedIdentity(p);
    if id.Some? && id.value in t.entities {
      var entities := t.entities[id.value := t.entities[id.value].(status := status)];
      assert BlankEntities(entities) ==
             BlankEntities(t.entities)[id.value := BlankEntities(t.entities)[id.value].(status := status)];
    }
  }

  lemma CreateIgnoresEpochs(entities: map<Id, Entity>, e: Entity, newEpoch: nat)
    ensures BlankEntities(entities[e.identityId := e.(epoch := newEpoch)]) ==
            BlankEntities(entities)[e.identityId := e.(epoch := 0)]
  {
  }

  /** An operation does the same to a table whatever the commit epochs in it are. */
  lemma ApplyIgnoresEpochs(adapter: Adapter, t: Tables, op: Operation, newEpoch: nat)
    ensures ErasedStep(ApplyOp(adapter, t, op, newEpoch)) == ApplyOp(adapter, Erased(t), op, 0)
  {
    match op.opType
    case ATTACH_ASSERTION =>
      if op.payload.AssertionDump? {
        AttachIgnoresEpochs(adapter.upserts, t.rows, op.payload.assertion.(epoch := newEpoch));
      }
    case CREATE_IDENTITY =>
      if op.payload.EntityDump? { CreateIgnoresEpochs(t.entities, op.payload.entity, newEpoch); }
    case RETRACT_ASSERTION => RetractIgnoresEpochs(adapter, t, op.payload);
    case REVOKE_IDENTITY => IdentityChangeIgnoresEpochs(t, op.payload, REVOKED);
    case RESTORE_IDENTITY => IdentityChangeIgnoresEpochs(t, op.payload, ACTIVE);
    case _ =>
  }

  lemma {:induction false} RunIgnoresEpochs(adapter: Adapter, t: Tables, ops: seq<Operation>, newEpoch: nat)
    ensures ErasedStep(RunOps(adapter, t, ops, newEpoch)) == RunOps(adapter, Erased(t), ops, 0)
    decreases ops
  {
    if ops != [] {
      ApplyIgnoresEpochs(adapter, t, ops[0], newEpoch);
      var step := ApplyOp(adapter, t, ops[0], newEpoch);
      if step.Ran? { RunIgnoresEpochs(adapter, step.tables, ops[1..], newEpoch); }
    }
  }

  /* ---------- the plans a rollback can undo ---------- */

  /** The operation does what it is for where it runs, and carries what undoes it: an attach
      mints an id the table does not hold, a retraction names a live record and carries a copy
      of it, a creation names none of the identities from before the plan. */
  predicate Enabled(before: set<Id>, t: Tables, op: Operation) {
    && op.reversal.Inverse?
    && match op.opType
       case ATTACH_ASSERTION =>
         op.payload.AssertionDump? && EnabledAttach(t.rows, op.payload.assertion, op.reversal.payload)
       case RETRACT_ASSERTION =>
         op.payload.StatusChange? && op.reversal.payload.AssertionDump?
         && EnabledRetract(t.rows, op.payload.assertionId, op.reversal.payload.assertion)
       case CREATE_IDENTITY =>
         op.payload.EntityDump? && EnabledCreate(before, op.payload.entity, op.reversal.payload)
       case _ => false
  }

  predicate EnabledAttach(rows: seq<Assertion>, a: Assertion, inverse: Payload) {
    && RowWithId(rows, a.assertionId) == |rows|
    && inverse.StatusChange? && inverse.assertionId == a.assertionId
    && inverse.newStatus == Some(SUPERSEDED) && inverse.supersededAt.Some? && inverse.supersededBy == None
  }

  predicate EnabledRetract(rows: seq<Assertion>, id: Id, copy: Assertion) {
    var i := RowWithId(rows, id);
    i < |rows| && rows[i].status == ACTIVE && Blank(rows[i]) == Blank(copy)
  }

  predicate EnabledCreate(before: set<Id>, e: Entity, inverse: Payload) {
    e.identityId !in before && e.status == ACTIVE && NamedIdentity(inverse) == Some(e.identityId)
  }

  predicate EnabledFrom(adapter: Adapter, before: set<Id>, t: Tables, ops: seq<Operation>, newEpoch: nat)
    decreases ops
  {
    ops == [] ||
    (Enabled(before, t, ops[0]) &&
     var step := ApplyOp(adapter, t, ops[0], newEpoch);
     step.Ran? && EnabledFrom(adapter, before, step.tables, ops[1..], newEpoch))
  }

  predicate EnabledAll(adapter: Adapter, t: Tables, ops: seq<Operation>, newEpoch: nat) {
    EnabledFrom(adapter, t.entities.Keys, t, ops, newEpoch)
  }

  lemma EnabledIgnoresEpochs(before: set<Id>, t: Tables, op: Operation)
    requires Enabled(before, t, op)
    ensures Enabled(before, Erased(t), op)
  {
    match op.opType
    case ATTACH_ASSERTION => LookupsIgnoreEpochs(t.rows, "", op.payload.assertion.assertionId);
    case RETRACT_ASSERTION => LookupsIgnoreEpochs(t.rows, "", op.payload.assertionId);
    case CREATE_IDENTITY =>
  }

  lemma {:induction false} EnabledFromIgnoresEpochs(adapter: Adapter, before: set<Id>, t: Tables, ops: seq<Operation>,
                                                    newEpoch: nat)
    requires EnabledFrom(adapter, before, t, ops, newEpoch)
    ensures EnabledFrom(adapter, before, Erased(t), ops, 0)
    decreases ops
  {
    if ops != [] {
      EnabledIgnoresEpochs(before, t, ops[0]);
      ApplyIgnoresEpochs(adapter, t, ops[0], newEpoch);
      EnabledFromIgnoresEpochs(adapter, before, ApplyOp(adapter, t, ops[0], newEpoch).tables, ops[1..], newEpoch);
    }
  }

  /* ---------- what undoing leaves ---------- */

  /** u holds all of t, in place, and besides it only retired records and revoked identities. */
  predicate Covers(u: Tables, t: Tables) {
    && |u.rows| >= |t.rows|
    && (forall i :: 0 <= i < |t.rows| ==> u.rows[i] == t.rows[i])
    && (forall i :: |t.rows| <= i < |u.rows| ==> u.rows[i].status == SUPERSEDED)
    && (forall id <- t.entities :: id in u.entities && u.entities[id] == t.entities[id])
    && (forall id <- u.entities :: id in t.entities || u.entities[id].status == REVOKED)
  }

  /** On the way: u holds t's rows in place and the old identities as they are in t, and
      besides only retired records and revoked identities.  Identities the plan made may stand
      in u as a later creation left them. */
  predicate CoversFrom(before: set<Id>, u: Tables, t: Tables) {
    && |u.rows| >= |t.rows|
    && (forall i :: 0 <= i < |t.rows| ==> u.rows[i] == t.rows[i])
    && (forall i :: |t.rows| <= i < |u.rows| ==> u.rows[i].status == SUPERSEDED)
    && (forall id <- t.entities :: id in u.entities && (id in before ==> u.entities[id] == t.entities[id]))
    && (forall id <- u.entities :: id in t.entities || u.entities[id].status == REVOKED)
  }

  /** q, run in a table covering the operation's outcome, leads to one covering its start t. */
  predicate Undone(adapter: Adapter, before: set<Id>, u': Tables, t: Tables, q: Operation) {
    var back := ApplyOp(adapter, u', q, 0);
    back.Ran? && CoversFrom(before, back.tables, t)
  }

  lemma UnwindAttach(adapter: Adapter, before: set<Id>, t: Tables, u': Tables, op: Operation, q: Operation,
                     r: Operation)
    requires op.opType == ATTACH_ASSERTION && Enabled(before, t, op)
    requires q.opType == RETRACT_ASSERTION && q.payload == op.reversal.payload && q.opType in adapter.implemented
    requires r.opType == ATTACH_ASSERTION && r.payload == op.payload
    requires CoversFrom(before, u', t.(rows := t.rows + [Blank(op.payload.assertion)]))
    ensures Undone(adapter, before, u', t, q)
    ensures adapter.upserts && r.opType in adapter.implemented ==>
              ApplyOp(adapter, ApplyOp(adapter, u', q, 0).tables, r, 0) == Ran(u')
  {
    var a, k := Blank(op.payload.assertion), |t.rows|;
    var grown := t.rows + [a];
    assert grown[k] == a && u'.rows[k] == grown[k];
    assert forall i :: 0 <= i < k ==> u'.rows[i] == grown[i] == t.rows[i];
    RowWithIdIs(u'.rows, a.assertionId, k);
    var rows := u'.rows[k := Retired(a, q.payload.supersededAt.value, None)];
    assert ApplyOp(adapter, u', q, 0) == Ran(u'.(rows := rows));
    RowOfIs(rows, a.subject, a.assertionId, k);
    assert rows[k := a] == u'.rows;
  }

  lemma UnwindRetract(adapter: Adapter, before: set<Id>, t: Tables, u': Tables, op: Operation, q: Operation,
                      r: Operation)
    requires adapter.upserts && op.opType == RETRACT_ASSERTION && Enabled(before, t, op)
    requires ApplyOp(adapter, t, op, 0).Ran? && BlankRows(t.rows) == t.rows
    requires q.opType == ATTACH_ASSERTION && q.payload == op.reversal.payload && q.opType in adapter.implemented
    requires r.opType == RETRACT_ASSERTION && r.payload == op.payload && r.opType in adapter.implemented
    requires CoversFrom(before, u', ApplyOp(adapter, t, op, 0).tables)
    ensures Undone(adapter, before, u', t, q) && ApplyOp(adapter, ApplyOp(adapter, u', q, 0).tables, r, 0) == Ran(u')
  {
    var id, k := op.payload.assertionId, RowWithId(t.rows, op.payload.assertionId);
    var shrunk := ApplyOp(adapter, t, op, 0).tables.rows;
    var a := Blank(q.payload.assertion);
    assert t.rows[k] == BlankRows(t.rows)[k] == a;
    assert shrunk == t.rows[k := Retired(a, op.payload.supersededAt.value, op.payload.supersededBy)];
    assert forall i :: 0 <= i < |t.rows| ==> u'.rows[i] == shrunk[i];
    RowOfIs(u'.rows, a.subject, a.assertionId, k);
    var rows := u'.rows[k := a];
    assert ApplyOp(adapter, u', q, 0) == Ran(u'.(rows := rows));
    RowWithIdIs(rows, id, k);
    assert rows[k := shrunk[k]] == u'.rows;
  }

  lemma UnwindCreate(adapter: Adapter, before: set<Id>, t: Tables, u': Tables, op: Operation, q: Operation)
    requires op.opType == CREATE_IDENTITY && Enabled(before, t, op) && ApplyOp(adapter, t, op, 0).Ran?
    requires q.opType == REVOKE_IDENTITY && q.payload == op.reversal.payload && q.opType in adapter.implemented
    requires CoversFrom(before, u', ApplyOp(adapter, t, op, 0).tables)
    ensures Undone(adapter, before, u', t, q)
  {
    var id := op.payload.entity.identityId;
    var created := ApplyOp(adapter, t, op, 0).tables.entities;
    assert id in created && id in u'.entities;
    assert forall i <- t.entities :: i in created && (i in before ==> created[i] == t.entities[i]);
  }

  /** The inverse of every operation is admitted, and the store undoes it in place: a store
      that appends cannot put a retracted record back into its row. */
  predicate Reversible(cfg: Config, ops: seq<Operation>) {
    forall op <- ops :: ReversibleOp(cfg, op)
  }

  predicate ReversibleOp(cfg: Config, op: Operation) {
    && InverseType(op.opType).Some? && Admits(cfg, InverseType(op.opType).value)
    && (cfg.adapter.upserts || op.opType != RETRACT_ASSERTION)
  }

  /** Every operation's type to come back with is admitted, and the store redoes it in place: a
      store that appends can only restore an identity. */
  predicate Restorable(cfg: Config, ops: seq<Operation>) {
    forall op <- ops :: RestorableOp(cfg, op)
  }

  predicate RestorableOp(cfg: Config, op: Operation) {
    Admits(cfg, Redone(op.opType)) && (cfg.adapter.upserts || op.opType == CREATE_IDENTITY)
  }

  lemma UnwindOne(cfg: Config, before: set<Id>, t: Tables, u': Tables, op: Operation, q: Operation, allowLegacy: bool)
    requires Enabled(before, t, op) && BlankRows(t.rows) == t.rows && ReversibleOp(cfg, op)
    requires ApplyOp(cfg.adapter, t, op, 0).Ran? && CoversFrom(before, u', ApplyOp(cfg.adapter, t, op, 0).tables)
    requires Undoes(q, op, allowLegacy)
    ensures Undone(cfg.adapter, before, u', t, q)
    ensures op.opType != CREATE_IDENTITY && RestorableOp(cfg, op) ==>
              var r := op.(opType := Redone(op.opType));
              ApplyOp(cfg.adapter, ApplyOp(cfg.adapter, u', q, 0).tables, r, 0) == Ran(u')
  {
    var r := op.(opType := Redone(op.opType));
    match op.opType
    case ATTACH_ASSERTION =>
      RowOfIs(t.rows, op.payload.assertion.subject, op.payload.assertion.assertionId, |t.rows|);
      UnwindAttach(cfg.adapter, before, t, u', op, q, r);
    case RETRACT_ASSERTION => UnwindRetract(cfg.adapter, before, t, u', op, q, r);
    case CREATE_IDENTITY => UnwindCreate(cfg.adapter, before, t, u', op, q);
  }

  lemma BlankStays(adapter: Adapter, t: Tables, op: Operation)
    requires BlankRows(t.rows) == t.rows && ApplyOp(adapter, t, op, 0).Ran?
    ensures var rows := ApplyOp(adapter, t, op, 0).tables.rows; BlankRows(rows) == rows
  {
    assert forall i :: 0 <= i < |t.rows| ==> t.rows[i].epoch == BlankRows(t.rows)[i].epoch == 0;
  }

  lemma SplitUndoes(qs: seq<Operation>, ps: seq<Operation>, allowLegacy: bool)
    requires ps != [] && UndoesAll(qs, ps, allowLegacy)
    ensures var n := |ps| - 1;
            && UndoesAll(qs[..n], ps[1..], allowLegacy) && Undoes(qs[n], ps[0], allowLegacy)
            && qs == qs[..n] + [qs[n]]
  {
    var n := |ps| - 1;
    forall i | 0 <= i < n ensures Undoes(qs[..n][i], ps[1..][n - 1 - i], allowLegacy) {
      assert Undoes(qs[i], ps[n - i], allowLegacy);
    }
    assert Undoes(qs[n], ps[0], allowLegacy);
  }

  /** Undoing all of ops, last first, in any table covering their outcome leads to one
      covering their start. */
  lemma {:induction false} UnwindAll(cfg: Config, before: set<Id>, t: Tables, u': Tables, ops: seq<Operation>,
                                     qs: seq<Operation>, allowLegacy: bool)
    requires BlankRows(t.rows) == t.rows && Reversible(cfg, ops) && EnabledFrom(cfg.adapter, before, t, ops, 0)
    requires RunOps(cfg.adapter, t, ops, 0).Ran? && CoversFrom(before, u', RunOps(cfg.adapter, t, ops, 0).tables)
    requires UndoesAll(qs, ops, allowLegacy)
    ensures var back := RunOps(cfg.adapter, u', qs, 0);
            back.Ran? && CoversFrom(before, back.tables, t)
    decreases ops
  {
    if ops != [] {
      var n := |ops| - 1;
      var mid := ApplyOp(cfg.adapter, t, ops[0], 0).tables;
      SplitUndoes(qs, ops, allowLegacy);
      BlankStays(cfg.adapter, t, ops[0]);
      assert ops[0] in ops && forall op <- ops[1..] :: op in ops;
      UnwindAll(cfg, before, mid, u', ops[1..], qs[..n], allowLegacy);
      var w := RunOps(cfg.adapter, u', qs[..n], 0).tables;
      UnwindOne(cfg, before, t, w, ops[0], qs[n], allowLegacy);
      RunOpsAppend(cfg.adapter, u', qs[..n], [qs[n]], 0);
      RunSingle(cfg.adapter, w, qs[n], 0);
    }
  }

  /* ---------- what redoing gives back ---------- */

  function Creates(op: Operation): set<Id> {
    if op.opType == CREATE_IDENTITY && op.payload.EntityDump? then {op.payload.entity.identityId} else {}
  }

  /** The identities the operations create. */
  function Created(ops: seq<Operation>): set<Id> {
    if ops == [] then {} else Creates(ops[0]) + Created(ops[1..])
  }

  /** The same tables, but for which of these identities are revoked. */
  predicate Alike(v: Tables, w: Tables, ids: set<Id>) {
    && v.rows == w.rows && v.entities.Keys == w.entities.Keys
    && forall id <- v.entities ::
         if id in ids then v.entities[id].(status := ACTIVE) == w.entities[id].(status := ACTIVE)
         else v.entities[id] == w.entities[id]
  }

  predicate AllActive(t: Tables, ids: set<Id>) {
    forall id <- ids :: id in t.entities && t.entities[id].status == ACTIVE
  }

  /** An operation of rows does the same in a table that has the same rows. */
  lemma RowsOpsAlike(adapter: Adapter, v: Tables, w: Tables, op: Operation, ids: set<Id>)
    requires op.opType == ATTACH_ASSERTION || op.opType == RETRACT_ASSERTION
    requires Alike(v, w, ids) && ApplyOp(adapter, w, op, 0).Ran?
    ensures ApplyOp(adapter, v, op, 0).Ran?
    ensures Alike(ApplyOp(adapter, v, op, 0).tables, ApplyOp(adapter, w, op, 0).tables, ids)
  {
  }

  lemma UndoerSpares(adapter: Adapter, u': Tables, q: Operation, op: Operation, allowLegacy: bool, id: Id)
    requires Undoes(q, op, allowLegacy) && Invertible(op) && id !in Creates(op) && id in u'.entities
    requires ApplyOp(adapter, u', q, 0).Ran?
    ensures id in ApplyOp(adapter, u', q, 0).tables.entities
    ensures ApplyOp(adapter, u', q, 0).tables.entities[id] == u'.entities[id]
  {
  }

  lemma CreatedLast(ops: seq<Operation>)
    requires ops != []
    ensures Created(ops) == Created(ops[..|ops| - 1]) + Creates(ops[|ops| - 1])
  {
    var n := |ops| - 1;
    assert ops == ops[..n] + [ops[n]] && [ops[n]][1..] == [];
    CreatedAppend(ops[..n], [ops[n]]);
  }

  lemma FirstUndoesLast(qs: seq<Operation>, ops: seq<Operation>, allowLegacy: bool)
    requires ops != [] && UndoesAll(qs, ops, allowLegacy)
    ensures var n := |ops| - 1;
            Undoes(qs[0], ops[n], allowLegacy) && UndoesAll(qs[1..], ops[..n], allowLegacy)
  {
    var n := |ops| - 1;
    assert Undoes(qs[0], ops[n], allowLegacy);
    forall i | 0 <= i < n ensures Undoes(qs[1..][i], ops[..n][n - 1 - i], allowLegacy) {
      assert Undoes(qs[i + 1], ops[n - 1 - i], allowLegacy);
    }
  }

  lemma {:induction false} UndoersSpareOthers(adapter: Adapter, u': Tables, qs: seq<Operation>, ops: seq<Operation>,
                                              allowLegacy: bool, id: Id)
    requires UndoesAll(qs, ops, allowLegacy) && id !in Created(ops) && id in u'.entities
    requires forall op <- ops :: Invertible(op)
    requires RunOps(adapter, u', qs, 0).Ran?
    ensures id in RunOps(adapter, u', qs, 0).tables.entities
    ensures RunOps(adapter, u', qs, 0).tables.entities[id] == u'.entities[id]
    decreases qs
  {
    if qs != [] {
      var n := |ops| - 1;
      FirstUndoesLast(qs, ops, allowLegacy);
      CreatedLast(ops);
      assert Invertible(ops[n]) by { assert ops[n] in ops; }
      UndoerSpares(adapter, u', qs[0], ops[n], allowLegacy, id);
      UndoersSpareOthers(adapter, ApplyOp(adapter, u', qs[0], 0).tables, qs[1..], ops[..n], allowLegacy, id);
    }
  }

  /** What every enabled operation is, seen on its own. */
  predicate Invertible(op: Operation) {
    && op.reversal.Inverse?
    && match op.opType
       case ATTACH_ASSERTION => true
       case RETRACT_ASSERTION => true
       case CREATE_IDENTITY =>
         op.payload.EntityDump? && NamedIdentity(op.reversal.payload) == Some(op.payload.entity.identityId)
       case _ => false
  }

  lemma {:induction false} CreatedAppend(a: seq<Operation>, b: seq<Operation>)
    ensures Created(a + b) == Created(a) + Created(b)
  {
    if a == [] {
      assert a + b == b;
    } else {
      assert (a + b)[1..] == a[1..] + b;
      CreatedAppend(a[1..], b);
    }
  }

  lemma RestoreAlike(adapter: Adapter, v: Tables, w: Tables, op: Operation, q: Operation, r: Operation, ids: set<Id>)
    requires op.opType == CREATE_IDENTITY && Invertible(op) && op.payload.entity.identityId in w.entities
    requires q.opType == REVOKE_IDENTITY && q.payload == op.reversal.payload && q.opType in adapter.implemented
    requires r.opType == RESTORE_IDENTITY && r.payload == op.payload && r.opType in adapter.implemented
    requires Alike(v, ApplyOp(adapter, w, q, 0).tables, Creates(op) + ids)
    requires op.payload.entity.identityId in ids || w.entities[op.payload.entity.identityId].status == ACTIVE
    ensures ApplyOp(adapter, v, r, 0).Ran? && Alike(ApplyOp(adapter, v, r, 0).tables, w, ids)
  {
    var id, back := op.payload.entity.identityId, ApplyOp(adapter, w, q, 0).tables;
    assert back == w.(entities := w.entities[id := w.entities[id].(status := REVOKED)]);
    assert id in v.entities && ApplyOp(adapter, v, r, 0) ==
           Ran(v.(entities := v.entities[id := v.entities[id].(status := ACTIVE)]));
  }

  /** Redoing, from what undoing left, leads back to the table undone; it does so whichever of
      the identities created are still revoked. */
  lemma {:induction false} RedoAll(cfg: Config, before: set<Id>, t: Tables, u': Tables, ops: seq<Operation>,
                                   qs: seq<Operation>, rs: seq<Operation>, allowLegacy: bool, v: Tables)
    requires BlankRows(t.rows) == t.rows && EnabledFrom(cfg.adapter, before, t, ops, 0)
    requires Reversible(cfg, ops) && Restorable(cfg, ops)
    requires RunOps(cfg.adapter, t, ops, 0).Ran? && CoversFrom(before, u', RunOps(cfg.adapter, t, ops, 0).tables)
    requires UndoesAll(qs, ops, allowLegacy) && RedoesAll(rs, ops) && AllActive(u', Created(ops))
    requires RunOps(cfg.adapter, u', qs, 0).Ran? && Alike(v, RunOps(cfg.adapter, u', qs, 0).tables, Created(ops))
    ensures RunOps(cfg.adapter, v, rs, 0) == Ran(u')
    decreases ops
  {
    if ops == [] {
      assert v.entities == u'.entities;
    } else {
      var n := |ops| - 1;
      var mid := ApplyOp(cfg.adapter, t, ops[0], 0).tables;
      SplitUndoes(qs, ops, allowLegacy);
      BlankStays(cfg.adapter, t, ops[0]);
      assert ops[0] in ops && forall op <- ops[1..] :: op in ops;
      UnwindAll(cfg, before, mid, u', ops[1..], qs[..n], allowLegacy);
      var w := RunOps(cfg.adapter, u', qs[..n], 0).tables;
      RunOpsAppend(cfg.adapter, u', qs[..n], [qs[n]], 0);
      RunSingle(cfg.adapter, w, qs[n], 0);
      RedoOne(cfg, before, t, u', w, ops, qs, rs[0], allowLegacy, v);
      RedoAll(cfg, before, mid, u', ops[1..], qs[..n], rs[1..], allowLegacy, ApplyOp(cfg.adapter, v, rs[0], 0).tables);
    }
  }

  lemma RedoOne(cfg: Config, before: set<Id>, t: Tables, u': Tables, w: Tables, ops: seq<Operation>,
                qs: seq<Operation>, r: Operation, allowLegacy: bool, v: Tables)
    requires ops != [] && BlankRows(t.rows) == t.rows && EnabledFrom(cfg.adapter, before, t, ops, 0)
    requires ReversibleOp(cfg, ops[0]) && RestorableOp(cfg, ops[0])
    requires CoversFrom(before, w, ApplyOp(cfg.adapter, t, ops[0], 0).tables)
    requires var n := |ops| - 1;
             && |qs| == |ops| && Undoes(qs[n], ops[0], allowLegacy) && UndoesAll(qs[..n], ops[1..], allowLegacy)
             && RunOps(cfg.adapter, u', qs[..n], 0) == Ran(w)
    requires r.payload == ops[0].payload && r.opType == Redone(ops[0].opType) && AllActive(u', Created(ops))
    requires ApplyOp(cfg.adapter, w, qs[|ops| - 1], 0).Ran?
    requires Alike(v, ApplyOp(cfg.adapter, w, qs[|ops| - 1], 0).tables, Created(ops))
    ensures ApplyOp(cfg.adapter, v, r, 0).Ran? && Alike(ApplyOp(cfg.adapter, v, r, 0).tables, w, Created(ops[1..]))
  {
    var op, q := ops[0], qs[|ops| - 1];
    var back := ApplyOp(cfg.adapter, w, q, 0).tables;
    if op.opType == CREATE_IDENTITY {
      var id := op.payload.entity.identityId;
      assert id in Created(ops);
      if id !in Created(ops[1..]) {
        EnabledAreInvertible(cfg.adapter, before, t, ops, 0);
        assert forall op <- ops[1..] :: op in ops;
        UndoersSpareOthers(cfg.adapter, u', qs[..|ops| - 1], ops[1..], allowLegacy, id);
      }
      RestoreAlike(cfg.adapter, v, w, op, q, r, Created(ops[1..]));
    } else {
      UnwindOne(cfg, before, t, w, op, q, allowLegacy);
      SameStep(cfg.adapter, back, op.(opType := Redone(op.opType)), r);
      RowsOpsAlike(cfg.adapter, v, back, r, Created(ops[1..]));
    }
  }

  /** What an operation does is in its type and its payload. */
  lemma SameStep(adapter: Adapter, t: Tables, a: Operation, b: Operation)
    requires a.opType == b.opType && a.payload == b.payload
    ensures ApplyOp(adapter, t, a, 0) == ApplyOp(adapter, t, b, 0)
  {
  }

  lemma {:induction false} EnabledAreInvertible(adapter: Adapter, before: set<Id>, t: Tables, ops: seq<Operation>,
                                                newEpoch: nat)
    requires EnabledFrom(adapter, before, t, ops, newEpoch)
    ensures forall op <- ops :: Invertible(op)
    decreases ops
  {
    if ops != [] {
      EnabledAreInvertible(adapter, before, ApplyOp(adapter, t, ops[0], newEpoch).tables, ops[1..], newEpoch);
      assert forall op <- ops :: op == ops[0] || op in ops[1..];
    }
  }

  lemma {:induction false} ActiveStays(adapter: Adapter, before: set<Id>, t: Tables, ops: seq<Operation>, newEpoch: nat,
                                       id: Id)
    requires EnabledFrom(adapter, before, t, ops, newEpoch) && id in t.entities && t.entities[id].status == ACTIVE
    ensures var after := RunOps(adapter, t, ops, newEpoch);
            after.Ran? && id in after.tables.entities && after.tables.entities[id].status == ACTIVE
    decreases ops
  {
    if ops != [] { ActiveStays(adapter, before, ApplyOp(adapter, t, ops[0], newEpoch).tables, ops[1..], newEpoch, id); }
  }

  lemma {:induction false} CreatedAreActive(adapter: Adapter, before: set<Id>, t: Tables, ops: seq<Operation>,
                                            newEpoch: nat)
    requires EnabledFrom(adapter, before, t, ops, newEpoch)
    ensures RunOps(adapter, t, ops, newEpoch).Ran?
    ensures AllActive(RunOps(adapter, t, ops, newEpoch).tables, Created(ops))
    decreases ops
  {
    if ops != [] {
      var next := ApplyOp(adapter, t, ops[0], newEpoch).tables;
      CreatedAreActive(adapter, before, next, ops[1..], newEpoch);
      if ops[0].opType == CREATE_IDENTITY {
        ActiveStays(adapter, before, next, ops[1..], newEpoch, ops[0].payload.entity.identityId);
      }
    }
  }

  lemma RunSingle(adapter: Adapter, t: Tables, op: Operation, newEpoch: nat)
    ensures RunOps(adapter, t, [op], newEpoch) == ApplyOp(adapter, t, op, newEpoch)
  {
    var step := ApplyOp(adapter, t, op, newEpoch);
    if step.Ran? { assert RunOps(adapter, step.tables, [op][1..], newEpoch) == step; }
  }

  /* ---------- a compensation passes the executor's checks ---------- */

  lemma {:induction false} CountAppend(a: seq<(Id, Id)>, b: seq<(Id, Id)>, id: Id)
    ensures Count(a + b, id) == Count(a, id) + Count(b, id)
  {
    if a == [] {
      assert a + b == b;
    } else {
      assert (a + b)[1..] == a[1..] + b;
      CountAppend(a[1..], b, id);
    }
  }

  lemma {:induction false} MintedAppend(a: seq<Operation>, b: seq<Operation>)
    ensures Minted(a + b) == Minted(a) + Minted(b)
  {
    if a == [] {
      assert a + b == b;
    } else {
      assert (a + b)[1..] == a[1..] + b;
      MintedAppend(a[1..], b);
      Sequences.Regrouped(MintedBy(a[0]), Minted(a[1..]), Minted(b));
    }
  }

  lemma {:induction false} NothingRepeated(minted: seq<(Id, Id)>, all: seq<(Id, Id)>)
    requires forall m <- minted :: Count(all, m.1) <= 1
    ensures Repeated(minted, all) == []
  {
    if minted != [] {
      assert minted[0] in minted;
      assert forall m <- minted[1..] :: m in minted;
      NothingRepeated(minted[1..], all);
    }
  }

  /** The table holds the record, and it is not live. */
  predicate Dead(rows: seq<Assertion>, id: Id) {
    var i := RowWithId(rows, id);
    i < |rows| && rows[i].status != ACTIVE
  }

  lemma DeadStaysDead(adapter: Adapter, before: set<Id>, t: Tables, op: Operation, id: Id)
    requires Enabled(before, t, op) && ApplyOp(adapter, t, op, 0).Ran?
    requires Dead(t.rows, id)
    ensures Dead(ApplyOp(adapter, t, op, 0).tables.rows, id)
    ensures op.opType == RETRACT_ASSERTION ==> op.payload.assertionId != id
  {
    var i, after := RowWithId(t.rows, id), ApplyOp(adapter, t, op, 0).tables.rows;
    if op.opType == ATTACH_ASSERTION {
      var a := op.payload.assertion;
      RowOfIs(t.rows, a.subject, a.assertionId, |t.rows|);
    }
    RowWithIdIs(after, id, i);
  }

  lemma RetractionKills(adapter: Adapter, before: set<Id>, t: Tables, op: Operation)
    requires op.opType == RETRACT_ASSERTION && Enabled(before, t, op) && ApplyOp(adapter, t, op, 0).Ran?
    ensures Dead(ApplyOp(adapter, t, op, 0).tables.rows, op.payload.assertionId)
  {
    var id := op.payload.assertionId;
    RowWithIdIs(ApplyOp(adapter, t, op, 0).tables.rows, id, RowWithId(t.rows, id));
  }

  /** No record is retracted twice by one plan, so its compensation attaches none twice. */
  lemma {:induction false} UndoersMintOnce(adapter: Adapter, before: set<Id>, t: Tables, ops: seq<Operation>,
                                           qs: seq<Operation>, allowLegacy: bool, id: Id)
    requires EnabledFrom(adapter, before, t, ops, 0) && UndoesAll(qs, ops, allowLegacy)
    ensures Count(Minted(qs), id) <= if Dead(t.rows, id) then 0 else 1
    decreases ops
  {
    if ops != [] {
      var n := |ops| - 1;
      var mid := ApplyOp(adapter, t, ops[0], 0).tables;
      SplitUndoes(qs, ops, allowLegacy);
      UndoersMintOnce(adapter, before, mid, ops[1..], qs[..n], allowLegacy, id);
      MintedAppend(qs[..n], [qs[n]]);
      CountAppend(Minted(qs[..n]), Minted([qs[n]]), id);
      MintedSingle(before, t, ops[0], qs[n], allowLegacy, id);
      if Dead(t.rows, id) { DeadStaysDead(adapter, before, t, ops[0], id); }
      if ops[0].opType == RETRACT_ASSERTION { RetractionKills(adapter, before, t, ops[0]); }
    }
  }

  lemma MintedSingle(before: set<Id>, t: Tables, op: Operation, q: Operation, allowLegacy: bool, id: Id)
    requires Enabled(before, t, op) && Undoes(q, op, allowLegacy)
    ensures Count(Minted([q]), id) == if op.opType == RETRACT_ASSERTION && op.payload.assertionId == id then 1 else 0
  {
    assert Minted([q]) == MintedBy(q) + Minted([q][1..]);
    assert Minted([q][1..]) == [];
  }

  lemma {:induction false} RedoersMintTheSame(rs: seq<Operation>, ops: seq<Operation>)
    requires RedoesAll(rs, ops)
    ensures Minted(rs) == Minted(ops)
  {
    if rs != [] {
      RedoersMintTheSame(rs[1..], ops[1..]);
    }
  }

  lemma {:induction false} AllMet(g: GraphState, ps: seq<Precondition>)
    requires forall p <- ps :: p.kind == SnapshotVersion && p.expected == Decimal(g.epoch)
    ensures Unmet(g, ps) == [] && FailedOf(g.versions, ps) == []
  {
    if ps != [] { AllMet(g, ps[1..]); }
  }

  /** A plan stamped with the current epoch commits if the executor admits its operations and
      the store can run them. */
  lemma NotOvertakenCommits(cfg: Config, g: GraphState, plan: Plan)
    requires plan.operations != [] && SelfConflicts(plan.operations) == []
    requires forall op <- plan.operations :: op.opType in cfg.supported
    requires forall p <- plan.preconditions :: p.kind == SnapshotVersion && p.expected == Decimal(g.epoch)
    requires RunOps(cfg.adapter, g.tables, plan.operations, g.epoch + 1).Ran?
    ensures Commits(cfg, g, plan)
  {
    AllMet(g, plan.preconditions);
    assert UnsupportedTypes(cfg.supported, plan.operations) == {};
  }

  /** A compensation guarded at the current epoch commits, if its operations apply. */
  lemma CompensationCommits(cfg: Config, g: GraphState, comp: Plan)
    requires comp.operations != [] && SelfConflicts(comp.operations) == []
    requires forall op <- comp.operations :: op.opType in cfg.supported
    requires forall p <- comp.preconditions :: p.kind == SnapshotVersion && p.expected == Decimal(g.epoch)
    requires RunOps(cfg.adapter, Erased(g.tables), comp.operations, 0).Ran?
    ensures Commits(cfg, g, comp)
    ensures var next := Attempt(cfg, g, comp, true).0;
            && next.epoch == g.epoch + 1
            && Ran(Erased(next.tables)) == RunOps(cfg.adapter, Erased(g.tables), comp.operations, 0)
  {
    RunIgnoresEpochs(cfg.adapter, g.tables, comp.operations, g.epoch + 1);
    NotOvertakenCommits(cfg, g, comp);
    CommitFacts(cfg, g, comp, true);
    AttemptCases(cfg, g, comp, true);
  }

  /* ---------- the live view ---------- */

  /** The live records in table order, without their commit epochs. */
  function LiveRows(rows: seq<Assertion>): seq<Assertion> {
    if rows == [] then [] else LiveRow(rows[0]) + LiveRows(rows[1..])
  }

  function LiveRow(a: Assertion): seq<Assertion> { if a.status == ACTIVE then [Blank(a)] else [] }

  function LiveEntities(entities: map<Id, Entity>): map<Id, Entity> {
    map id <- entities | entities[id].status != REVOKED :: entities[id].(epoch := 0)
  }

  lemma {:induction false} LiveRowsOfCovering(u: seq<Assertion>, t: seq<Assertion>)
    requires |u| >= |t| && forall i :: 0 <= i < |t| ==> Blank(u[i]) == Blank(t[i])
    requires forall i :: |t| <= i < |u| ==> u[i].status == SUPERSEDED
    ensures LiveRows(u) == LiveRows(t)
    decreases |u|
  {
    if t != [] {
      assert Blank(u[0]) == Blank(t[0]);
      forall i | 0 <= i < |t| - 1 ensures Blank(u[1..][i]) == Blank(t[1..][i]) {
        assert Blank(u[i + 1]) == Blank(t[i + 1]);
      }
      LiveRowsOfCovering(u[1..], t[1..]);
    } else if u != [] {
      LiveRowsOfCovering(u[1..], t);
    }
  }

  lemma CoveringKeepsLive(u: Tables, t: Tables)
    requires Covers(Erased(u), Erased(t))
    ensures LiveRows(u.rows) == LiveRows(t.rows)
    ensures LiveEntities(u.entities) == LiveEntities(t.entities)
  {
    var v, s := Erased(u), Erased(t);
    forall i | 0 <= i < |t.rows| ensures Blank(u.rows[i]) == Blank(t.rows[i]) {
      assert v.rows[i] == s.rows[i];
    }
    forall i | |t.rows| <= i < |u.rows| ensures u.rows[i].status == SUPERSEDED {
      assert v.rows[i].status == SUPERSEDED;
    }
    LiveRowsOfCovering(u.rows, t.rows);
    forall id <- u.entities ensures
      if id in t.entities then u.entities[id].(epoch := 0) == t.entities[id].(epoch := 0)
      else u.entities[id].status == REVOKED
    {
      assert id in v.entities;
    }
    forall id <- t.entities ensures id in u.entities { assert id in s.entities; }
  }

  /** The plan that compensates all of a plan's operations, if there is one. */
  function FullCompensation(settings: Settings, plan: Plan, epoch: nat): Option<Plan> {
    if !plan.WellFormed() then None
    else
      match CompensationOf(settings, plan, Whole(epoch))
      case Ok(r) => if r.nonCompensable == [] then r.plan else None
      case Err(_) => None
  }

  /** A plan all of whose operations have an inverse payload compensates in full, guarded at
      the epoch given. */
  lemma FullyCompensated(settings: Settings, plan: Plan, epoch: nat)
    requires plan.WellFormed() && plan.operations != []
    requires forall op <- plan.operations :: Compensable(op) && InversePayload(op, settings.allowLegacy).Ok?
    ensures var comp := FullCompensation(settings, plan, epoch);
            && comp.Some? && comp.value.WellFormed() && comp.value.operations != []
            && UndoesAll(comp.value.operations, plan.operations, settings.allowLegacy)
            && forall p <- comp.value.preconditions :: p.kind == SnapshotVersion && p.expected == Decimal(epoch)
  {
    InvertAllOkIff(settings.ids, plan.operations, settings.allowLegacy);
    KeepAll(plan.operations);
    InvertAllStructure(settings.ids, plan.operations, settings.allowLegacy);
    GuardsExpectEpoch(settings, plan, Whole(epoch));
  }

  lemma UndoersAdmitted(cfg: Config, ops: seq<Operation>, qs: seq<Operation>, allowLegacy: bool)
    requires Reversible(cfg, ops) && UndoesAll(qs, ops, allowLegacy)
    ensures forall q <- qs :: q.opType in cfg.supported
  {
    forall q <- qs ensures q.opType in cfg.supported {
      var i :| 0 <= i < |qs| && qs[i] == q;
      assert Undoes(qs[i], ops[|ops| - 1 - i], allowLegacy);
      assert ReversibleOp(cfg, ops[|ops| - 1 - i]) by { assert ops[|ops| - 1 - i] in ops; }
    }
  }

  lemma RedoersAdmitted(cfg: Config, ops: seq<Operation>, rs: seq<Operation>)
    requires Restorable(cfg, ops) && RedoesAll(rs, ops)
    ensures forall r <- rs :: r.opType in cfg.supported
  {
    forall r <- rs ensures r.opType in cfg.supported {
      var i :| 0 <= i < |rs| && rs[i] == r;
      assert RestorableOp(cfg, ops[i]) by { assert ops[i] in ops; }
    }
  }

  /** Everything a rollback needs to know about the three operation lists. */
  lemma TrailOfOperations(cfg: Config, t: Tables, ops: seq<Operation>, qs: seq<Operation>, rs: seq<Operation>,
                          allowLegacy: bool)
    requires Reversible(cfg, ops) && SelfConflicts(ops) == []
    requires EnabledAll(cfg.adapter, Erased(t), ops, 0)
    requires UndoesAll(qs, ops, allowLegacy) && UndoesAll(rs, qs, allowLegacy)
    ensures SelfConflicts(qs) == [] && SelfConflicts(rs) == []
    ensures RunOps(cfg.adapter, Erased(t), ops, 0).Ran?
    ensures var after := RunOps(cfg.adapter, Erased(t), ops, 0).tables;
            var back := RunOps(cfg.adapter, after, qs, 0);
            && back.Ran? && Covers(back.tables, Erased(t))
            && (Restorable(cfg, ops) ==> RunOps(cfg.adapter, back.tables, rs, 0) == Ran(after))
  {
    var before, start := Erased(t).entities.Keys, Erased(t);
    CreatedAreActive(cfg.adapter, before, start, ops, 0);
    var after := RunOps(cfg.adapter, start, ops, 0).tables;
    UnwindAll(cfg, before, start, after, ops, qs, allowLegacy);
    forall id ensures Count(Minted(qs), id) <= 1 {
      UndoersMintOnce(cfg.adapter, before, start, ops, qs, allowLegacy, id);
    }
    NothingRepeated(Minted(qs), Minted(qs));
    UndoneTwice(rs, qs, ops, allowLegacy);
    RedoersMintTheSame(rs, ops);
    if Restorable(cfg, ops) {
      RedoAll(cfg, before, start, after, ops, qs, rs, allowLegacy, RunOps(cfg.adapter, after, qs, 0).tables);
    }
  }

  /* ---------- creation epochs ---------- */

  /** The same identities, each at the epoch that created it. */
  predicate SameCreations(entities: map<Id, Entity>, later: map<Id, Entity>) {
    entities.Keys == later.Keys && forall id <- entities :: entities[id].epoch == later[id].epoch
  }

  /** Only a creation touches an identity's epoch. */
  lemma {:induction false} RunKeepsCreations(adapter: Adapter, t: Tables, ops: seq<Operation>, newEpoch: nat)
    requires RunOps(adapter, t, ops, newEpoch).Ran? && forall op <- ops :: op.opType != CREATE_IDENTITY
    ensures SameCreations(t.entities, RunOps(adapter, t, ops, newEpoch).tables.entities)
    decreases ops
  {
    if ops != [] {
      assert ops[0].opType != CREATE_IDENTITY;
      var next := ApplyOp(adapter, t, ops[0], newEpoch).tables;
      assert SameCreations(t.entities, next.entities);
      RunKeepsCreations(adapter, next, ops[1..], newEpoch);
    }
  }

  lemma UndoersCreateNothing(qs: seq<Operation>, ops: seq<Operation>, allowLegacy: bool)
    requires UndoesAll(qs, ops, allowLegacy)
    ensures forall q <- qs :: q.opType != CREATE_IDENTITY
  {
    forall q <- qs ensures q.opType != CREATE_IDENTITY {
      var i :| 0 <= i < |qs| && qs[i] == q;
      assert Undoes(qs[i], ops[|ops| - 1 - i], allowLegacy);
    }
  }

  lemma CompensationKeepsCreations(cfg: Config, g: GraphState, comp: Plan, ops: seq<Operation>, allowLegacy: bool)
    requires Commits(cfg, g, comp) && UndoesAll(comp.operations, ops, allowLegacy)
    ensures SameCreations(g.tables.entities, Attempt(cfg, g, comp, true).0.tables.entities)
  {
    UndoersCreateNothing(comp.operations, ops, allowLegacy);
    CommitFacts(cfg, g, comp, true);
    RunKeepsCreations(cfg.adapter, g.tables, comp.operations, g.epoch + 1);
  }

  /** Enabled operations leave every identity there was exactly as it was. */
  lemma {:induction false} OldEntitiesStay(adapter: Adapter, before: set<Id>, t: Tables, ops: seq<Operation>,
                                           newEpoch: nat, id: Id)
    requires EnabledFrom(adapter, before, t, ops, newEpoch) && id in before && id in t.entities
    ensures var after := RunOps(adapter, t, ops, newEpoch);
            after.Ran? && id in after.tables.entities && after.tables.entities[id] == t.entities[id]
    decreases ops
  {
    if ops != [] {
      OldEntitiesStay(adapter, before, ApplyOp(adapter, t, ops[0], newEpoch).tables, ops[1..], newEpoch, id);
    }
  }

  lemma SameUpToEpochs(e: map<Id, Entity>, f: map<Id, Entity>)
    requires BlankEntities(e) == BlankEntities(f) && SameCreations(e, f)
    ensures e == f
  {
    forall id <- e ensures e[id] == f[id] {
      assert BlankEntities(e)[id] == BlankEntities(f)[id];
    }
  }

  /* ---------- the theorems ---------- */

  /** The plan and its compensation at the epoch of the commit, as they change the graph. */
  function AfterPlan(cfg: Config, g: GraphState, plan: Plan): GraphState { Attempt(cfg, g, plan, false).0 }

  function AfterComp(cfg: Config, g: GraphState, comp: Plan): GraphState { Attempt(cfg, g, comp, true).0 }

  /** The plan's full compensation exists and commits next; it restores the live view, leaves
      every old row in place and every old identity exactly as it was, and besides only
      retired rows and identities revoked at the epoch that created them. */
  predicate RollsBack(cfg: Config, settings: Settings, g: GraphState, plan: Plan) {
    var g1 := AfterPlan(cfg, g, plan);
    var comp := FullCompensation(settings, plan, g1.epoch);
    && comp.Some? && Commits(cfg, g1, comp.value)
    && var g2 := AfterComp(cfg, g1, comp.value);
    && Covers(Erased(g2.tables), Erased(g.tables))
    && LiveRows(g2.tables.rows) == LiveRows(g.tables.rows)
    && LiveEntities(g2.tables.entities) == LiveEntities(g.tables.entities)
    && (forall id <- g.tables.entities :: id in g2.tables.entities && g2.tables.entities[id] == g.tables.entities[id])
    && SameCreations(g1.tables.entities, g2.tables.entities)
  }

  /** The compensation of that compensation exists and commits too, and gives back the table
      the plan had left: its rows, order, statuses and pointers, and its identities with their
      creation epochs. */
  predicate ComesBack(cfg: Config, settings: Settings, g: GraphState, plan: Plan) {
    var g1 := AfterPlan(cfg, g, plan);
    var comp := FullCompensation(settings, plan, g1.epoch);
    && comp.Some? && Commits(cfg, g1, comp.value)
    && var g2 := AfterComp(cfg, g1, comp.value);
    var again := FullCompensation(settings, comp.value, g2.epoch);
    && again.Some? && Commits(cfg, g2, again.value)
    && var g3 := AfterComp(cfg, g2, again.value);
    && BlankRows(g3.tables.rows) == BlankRows(g1.tables.rows)
    && g3.tables.entities == g1.tables.entities
  }

  lemma RollbackTrail(cfg: Config, settings: Settings, g: GraphState, plan: Plan)
    requires plan.WellFormed() && Commits(cfg, g, plan) && Reversible(cfg, plan.operations)
    requires EnabledAll(cfg.adapter, g.tables, plan.operations, g.epoch + 1)
    ensures var g1 := AfterPlan(cfg, g, plan);
            var comp := FullCompensation(settings, plan, g1.epoch);
            && comp.Some? && Commits(cfg, g1, comp.value)
            && UndoesAll(comp.value.operations, plan.operations, settings.allowLegacy)
            && var g2 := AfterComp(cfg, g1, comp.value);
            var again := FullCompensation(settings, comp.value, g2.epoch);
            && Covers(Erased(g2.tables), Erased(g.tables))
            && again.Some? && UndoesAll(again.value.operations, comp.value.operations, settings.allowLegacy)
            && (Restorable(cfg, plan.operations) ==>
                  Commits(cfg, g2, again.value) && Erased(AfterComp(cfg, g2, again.value).tables) == Erased(g1.tables))
  {
    var ops, e := plan.operations, g.epoch + 1;
    CommitFacts(cfg, g, plan, false);
    EnabledAreInvertible(cfg.adapter, g.tables.entities.Keys, g.tables, ops, e);
    EnabledFromIgnoresEpochs(cfg.adapter, g.tables.entities.Keys, g.tables, ops, e);
    assert Erased(g.tables).entities.Keys == g.tables.entities.Keys;
    RunIgnoresEpochs(cfg.adapter, g.tables, ops, e);
    var g1 := AfterPlan(cfg, g, plan);
    FullyCompensated(settings, plan, g1.epoch);
    var comp := FullCompensation(settings, plan, g1.epoch).value;
    UndoersAreCompensable(comp.operations, ops, settings.allowLegacy);
    FullyCompensated(settings, comp, g1.epoch + 1);
    var again := FullCompensation(settings, comp, g1.epoch + 1).value;
    UndoersAdmitted(cfg, ops, comp.operations, settings.allowLegacy);
    TrailOfOperations(cfg, g.tables, ops, comp.operations, again.operations, settings.allowLegacy);
    CompensationCommits(cfg, g1, comp);
    if Restorable(cfg, ops) {
      UndoneTwice(again.operations, comp.operations, ops, settings.allowLegacy);
      RedoersAdmitted(cfg, ops, again.operations);
      CompensationCommits(cfg, AfterComp(cfg, g1, comp), again);
    }
  }

  /** A committed plan of creations, attaches and retractions, each enabled where it ran, rolls
      back wherever their inverses are admitted. */
  lemma RollbackRestores(cfg: Config, settings: Settings, g: GraphState, plan: Plan)
    requires plan.WellFormed() && Commits(cfg, g, plan) && Reversible(cfg, plan.operations)
    requires EnabledAll(cfg.adapter, g.tables, plan.operations, g.epoch + 1)
    ensures RollsBack(cfg, settings, g, plan)
  {
    RollbackTrail(cfg, settings, g, plan);
    var g1 := AfterPlan(cfg, g, plan);
    var comp := FullCompensation(settings, plan, g1.epoch).value;
    var g2 := AfterComp(cfg, g1, comp);
    CoveringKeepsLive(g2.tables, g.tables);
    CompensationKeepsCreations(cfg, g1, comp, plan.operations, settings.allowLegacy);
    CommitFacts(cfg, g, plan, false);
    forall id <- g.tables.entities
      ensures id in g2.tables.entities && g2.tables.entities[id] == g.tables.entities[id]
    {
      OldEntitiesStay(cfg.adapter, g.tables.entities.Keys, g.tables, plan.operations, g.epoch + 1, id);
      assert id in Erased(g.tables).entities && Erased(g2.tables).entities[id] == Erased(g.tables).entities[id];
    }
  }

  /** It comes back wherever, besides, the types to come back with are admitted. */
  lemma UndoOfUndoRestores(cfg: Config, settings: Settings, g: GraphState, plan: Plan)
    requires plan.WellFormed() && Commits(cfg, g, plan)
    requires Reversible(cfg, plan.operations) && Restorable(cfg, plan.operations)
    requires EnabledAll(cfg.adapter, g.tables, plan.operations, g.epoch + 1)
    ensures ComesBack(cfg, settings, g, plan)
  {
    RollbackTrail(cfg, settings, g, plan);
    var g1 := AfterPlan(cfg, g, plan);
    var comp := FullCompensation(settings, plan, g1.epoch).value;
    var g2 := AfterComp(cfg, g1, comp);
    var again := FullCompensation(settings, comp, g2.epoch).value;
    CompensationKeepsCreations(cfg, g1, comp, plan.operations, settings.allowLegacy);
    CompensationKeepsCreations(cfg, g2, again, comp.operations, settings.allowLegacy);
    SameUpToEpochs(AfterComp(cfg, g2, again).tables.entities, g1.tables.entities);
  }

  /** On the reference store, with the executor's default types, every plan of creations rolls
      back and comes back. */
  lemma CreationsOnReference(cfg: Config, settings: Settings, g: GraphState, plan: Plan)
    requires cfg.adapter == REFERENCE && DEFAULT_SUPPORTED <= cfg.supported
    requires plan.WellFormed() && Commits(cfg, g, plan) && forall op <- plan.operations :: op.opType == CREATE_IDENTITY
    requires EnabledAll(cfg.adapter, g.tables, plan.operations, g.epoch + 1)
    ensures RollsBack(cfg, settings, g, plan) && ComesBack(cfg, settings, g, plan)
  {
    RollbackRestores(cfg, settings, g, plan);
    UndoOfUndoRestores(cfg, settings, g, plan);
  }

  /** On the store of the end-to-end harness every plan of attaches and retractions does. */
  lemma RecordsOnE2E(cfg: Config, settings: Settings, g: GraphState, plan: Plan)
    requires cfg.adapter == E2E && {ATTACH_ASSERTION, RETRACT_ASSERTION} <= cfg.supported
    requires plan.WellFormed() && Commits(cfg, g, plan)
    requires forall op <- plan.operations :: op.opType in {ATTACH_ASSERTION, RETRACT_ASSERTION}
    requires EnabledAll(cfg.adapter, g.tables, plan.operations, g.epoch + 1)
    ensures RollsBack(cfg, settings, g, plan) && ComesBack(cfg, settings, g, plan)
  {
    RecordsReverse(cfg, plan.operations);
    RollbackRestores(cfg, settings, g, plan);
    UndoOfUndoRestores(cfg, settings, g, plan);
  }

  lemma RecordsReverse(cfg: Config, ops: seq<Operation>)
    requires cfg.adapter == E2E && {ATTACH_ASSERTION, RETRACT_ASSERTION} <= cfg.supported
    requires forall op <- ops :: op.opType in {ATTACH_ASSERTION, RETRACT_ASSERTION}
    ensures Reversible(cfg, ops) && Restorable(cfg, ops)
  {
  }

  /* ---------- one row per record ---------- */

  predicate UniqueIds(rows: seq<Assertion>) {
    forall i, j :: 0 <= i < j < |rows| ==> rows[i].assertionId != rows[j].assertionId
  }

  lemma EnabledKeepsUnique(adapter: Adapter, before: set<Id>, t: Tables, op: Operation, newEpoch: nat)
    requires Enabled(before, t, op) && ApplyOp(adapter, t, op, newEpoch).Ran? && UniqueIds(t.rows)
    ensures UniqueIds(ApplyOp(adapter, t, op, newEpoch).tables.rows)
  {
    if op.opType == ATTACH_ASSERTION {
      var a := op.payload.assertion;
      RowOfIs(t.rows, a.subject, a.assertionId, |t.rows|);
    }
  }

  lemma {:induction false} EnabledRunKeepsUnique(adapter: Adapter, before: set<Id>, t: Tables, ops: seq<Operation>,
                                                 newEpoch: nat)
    requires EnabledFrom(adapter, before, t, ops, newEpoch) && UniqueIds(t.rows)
    ensures RunOps(adapter, t, ops, newEpoch).Ran? && UniqueIds(RunOps(adapter, t, ops, newEpoch).tables.rows)
    decreases ops
  {
    if ops != [] {
      EnabledKeepsUnique(adapter, before, t, ops[0], newEpoch);
      EnabledRunKeepsUnique(adapter, before, ApplyOp(adapter, t, ops[0], newEpoch).tables, ops[1..], newEpoch);
    }
  }

  lemma SameIdsUnique(rows: seq<Assertion>, later: seq<Assertion>)
    requires RowsKept(rows, later) && |rows| == |later| && UniqueIds(rows)
    ensures UniqueIds(later)
  {
  }

  /** Through all three commits no row moves or goes, and no record id gets a second row. */
  lemma OneRowPerRecord(cfg: Config, settings: Settings, g: GraphState, plan: Plan)
    requires plan.WellFormed() && Commits(cfg, g, plan)
    requires Reversible(cfg, plan.operations) && Restorable(cfg, plan.operations)
    requires EnabledAll(cfg.adapter, g.tables, plan.operations, g.epoch + 1)
    requires UniqueIds(g.tables.rows)
    ensures var g1 := AfterPlan(cfg, g, plan);
            var comp := FullCompensation(settings, plan, g1.epoch);
            && comp.Some?
            && var g2 := AfterComp(cfg, g1, comp.value);
            var again := FullCompensation(settings, comp.value, g2.epoch);
            && again.Some?
            && var g3 := AfterComp(cfg, g2, again.value);
            && RowsKept(g.tables.rows, g1.tables.rows) && RowsKept(g1.tables.rows, g2.tables.rows)
            && RowsKept(g2.tables.rows, g3.tables.rows) && |g1.tables.rows| == |g3.tables.rows|
            && UniqueIds(g1.tables.rows) && UniqueIds(g2.tables.rows) && UniqueIds(g3.tables.rows)
  {
    RollbackTrail(cfg, settings, g, plan);
    var g1 := Attempt(cfg, g, plan, false).0;
    var comp := FullCompensation(settings, plan, g1.epoch).value;
    var g2 := Attempt(cfg, g1, comp, true).0;
    var again := FullCompensation(settings, comp, g2.epoch).value;
    var g3 := Attempt(cfg, g2, again, true).0;
    CommitKeepsRows(cfg, g, plan, false);
    CommitKeepsRows(cfg, g1, comp, true);
    CommitKeepsRows(cfg, g2, again, true);
    CommitFacts(cfg, g, plan, false);
    EnabledRunKeepsUnique(cfg.adapter, g.tables.entities.Keys, g.tables, plan.operations, g.epoch + 1);
    assert |Erased(g3.tables).rows| == |Erased(g1.tables).rows|;
    SameIdsUnique(g1.tables.rows, g2.tables.rows);
    SameIdsUnique(g2.tables.rows, g3.tables.rows);
  }
}
