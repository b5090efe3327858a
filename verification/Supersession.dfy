/** The supersession protocol over every interleaving of its clients: read a fact's live
    record at some epoch, plan its successor, execute the plan any time later. */
module Supersession {
  import opened Wrappers
  import opened Contracts
  import opened Numerals
  import opened Records
  import opened CanonicalJson
  import Sequences
  import opened GraphStore
  import opened Execution
  import opened Planning
  import opened Evolution
  import opened Runs
  import opened Rollback

  datatype Slot = Slot(subject: Id, attribute: string)

  predicate Of(slot: Slot, a: Assertion) { a.subject == slot.subject && a.attribute == slot.attribute }

  /* ---------- a fact in good order ---------- */

  /** The ids of the slot's rows occur nowhere else in the table. */
  predicate OwnIds(rows: seq<Assertion>, slot: Slot) {
    forall i, j :: 0 <= i < |rows| && 0 <= j < |rows| && i != j && Of(slot, rows[i]) ==>
      rows[i].assertionId != rows[j].assertionId
  }

  predicate LiveAt(rows: seq<Assertion>, slot: Slot, k: int) {
    0 <= k < |rows| && Of(slot, rows[k]) && rows[k].status == ACTIVE
  }

  /** Exactly one row of the slot is live, and it carries no trace of a retirement. */
  ghost predicate OneLive(rows: seq<Assertion>, slot: Slot) {
    && (exists k :: LiveAt(rows, slot, k))
    && (forall i, j :: LiveAt(rows, slot, i) && LiveAt(rows, slot, j) ==> i == j)
    && (forall i :: LiveAt(rows, slot, i) ==> rows[i].supersededAt == None && rows[i].supersededBy == None)
  }

  /** The row is retired in favour of a later row of the slot, committed at a later epoch. */
  predicate Replaced(rows: seq<Assertion>, slot: Slot, i: nat)
    requires i < |rows|
  {
    && rows[i].status == SUPERSEDED && rows[i].supersededAt.Some? && rows[i].supersededBy.Some?
    && var j := RowWithId(rows, rows[i].supersededBy.value);
    && i < j < |rows| && Of(slot, rows[j]) && rows[i].epoch < rows[j].epoch
  }

  predicate AllReplaced(rows: seq<Assertion>, slot: Slot) {
    forall i :: 0 <= i < |rows| && Of(slot, rows[i]) && rows[i].status != ACTIVE ==> Replaced(rows, slot, i)
  }

  predicate EpochsUpTo(rows: seq<Assertion>, slot: Slot, epoch: nat) {
    forall i :: 0 <= i < |rows| && Of(slot, rows[i]) ==> rows[i].epoch <= epoch
  }

  ghost predicate InOrder(rows: seq<Assertion>, slot: Slot, epoch: nat) {
    OwnIds(rows, slot) && OneLive(rows, slot) && AllReplaced(rows, slot) && EpochsUpTo(rows, slot, epoch)
  }

  /** Every row of the slot is still there; a retired one unchanged, a live one unchanged or
      retired with nothing else about it changed. */
  predicate HistoryKept(rows: seq<Assertion>, later: seq<Assertion>, slot: Slot) {
    && |rows| <= |later|
    && forall k :: 0 <= k < |rows| && Of(slot, rows[k]) ==>
         later[k] == rows[k] || (rows[k].status == ACTIVE && IsRetired(rows[k], later[k]))
  }

  predicate IsRetired(a: Assertion, b: Assertion) {
    b.supersededAt.Some? && b.supersededBy.Some? && b == Retired(a, b.supersededAt.value, b.supersededBy)
  }

  /* ---------- a supersession ---------- */

  /** What a client read and planned: at which moment of the run, and for which records. */
  datatype Read = Read(moment: nat, planner: Planner, prior: Assertion, next: Assertion, trigger: Trigger)

  /** The client saw the slot's live row, and minted a clean successor whose id it saw nowhere
      in the graph. */
  predicate Saw(rows: seq<Assertion>, slot: Slot, r: Read) {
    && r.prior in rows && Of(slot, r.prior)
    && Of(slot, r.next) && r.next.status == ACTIVE && r.next.supersededAt == None && r.next.supersededBy == None
    && RowWithId(rows, r.next.assertionId) == |rows|
    && PlanSupersession(r.planner, r.prior, r.next, r.trigger).Ok?
  }

  function Replacing(rows: seq<Assertion>, i: nat, at: Instant, a: Assertion): seq<Assertion>
    requires i < |rows|
  {
    rows[i := Retired(rows[i], at, Some(a.assertionId))] + [a]
  }

  lemma ReplacingKeepsIds(rows: seq<Assertion>, slot: Slot, i: nat, at: Instant, a: Assertion)
    requires i < |rows| && OwnIds(rows, slot) && RowWithId(rows, a.assertionId) == |rows|
    ensures OwnIds(Replacing(rows, i, at, a), slot)
  {
    var after := Replacing(rows, i, at, a);
    assert forall k :: 0 <= k < |rows| ==>
                         after[k].assertionId == rows[k].assertionId && Of(slot, after[k]) == Of(slot, rows[k]);
  }

  lemma ReplacingKeepsOneLive(rows: seq<Assertion>, slot: Slot, i: nat, at: Instant, a: Assertion)
    requires OneLive(rows, slot) && LiveAt(rows, slot, i)
    requires Of(slot, a) && a.status == ACTIVE && a.supersededAt == None && a.supersededBy == None
    ensures OneLive(Replacing(rows, i, at, a), slot)
  {
    var after := Replacing(rows, i, at, a);
    assert LiveAt(after, slot, |rows|);
    forall k | 0 <= k < |rows| ensures !LiveAt(after, slot, k) {
      assert LiveAt(rows, slot, k) ==> k == i;
    }
  }

  lemma ReplacingKeepsReplaced(rows: seq<Assertion>, slot: Slot, epoch: nat, i: nat, at: Instant, a: Assertion)
    requires AllReplaced(rows, slot) && LiveAt(rows, slot, i) && EpochsUpTo(rows, slot, epoch)
    requires Of(slot, a) && a.status == ACTIVE && a.epoch == epoch + 1 && RowWithId(rows, a.assertionId) == |rows|
    ensures AllReplaced(Replacing(rows, i, at, a), slot)
  {
    var after, n := Replacing(rows, i, at, a), |rows|;
    assert forall k :: 0 <= k < n ==> after[k].assertionId == rows[k].assertionId;
    assert after[n] == a;
    forall k | 0 <= k < |after| && Of(slot, after[k]) && after[k].status != ACTIVE ensures Replaced(after, slot, k) {
      if k == i {
        RowWithIdIs(after, a.assertionId, n);
      } else {
        assert after[k] == rows[k] && Replaced(rows, slot, k);
        RowWithIdIs(after, rows[k].supersededBy.value, RowWithId(rows, rows[k].supersededBy.value));
      }
    }
  }

  lemma ReplacingKeepsOrder(rows: seq<Assertion>, slot: Slot, epoch: nat, i: nat, at: Instant, a: Assertion)
    requires InOrder(rows, slot, epoch) && LiveAt(rows, slot, i)
    requires Of(slot, a) && a.status == ACTIVE && a.supersededAt == None && a.supersededBy == None
    requires a.epoch == epoch + 1
    requires RowWithId(rows, a.assertionId) == |rows|
    ensures InOrder(Replacing(rows, i, at, a), slot, epoch + 1)
    ensures HistoryKept(rows, Replacing(rows, i, at, a), slot)
  {
    ReplacingKeepsIds(rows, slot, i, at, a);
    ReplacingKeepsOneLive(rows, slot, i, at, a);
    ReplacingKeepsReplaced(rows, slot, epoch, i, at, a);
  }

  /** A read whose view of the table still holds commits into a table in good order. */
  lemma SupersessionKeepsOrder(adapter: Adapter, g: GraphState, slot: Slot, r: Read)
    requires InOrder(g.tables.rows, slot, g.epoch) && Saw(g.tables.rows, slot, r)
    requires var ops := PlanSupersession(r.planner, r.prior, r.next, r.trigger).value.plan.operations;
             RunOps(adapter, g.tables, ops, g.epoch + 1).Ran?
    ensures var ops := PlanSupersession(r.planner, r.prior, r.next, r.trigger).value.plan.operations;
            var after := RunOps(adapter, g.tables, ops, g.epoch + 1).tables.rows;
            InOrder(after, slot, g.epoch + 1) && HistoryKept(g.tables.rows, after, slot)
  {
    var rows := g.tables.rows;
    var ops := PlanSupersession(r.planner, r.prior, r.next, r.trigger).value.plan.operations;
    var i :| 0 <= i < |rows| && rows[i] == r.prior;
    assert LiveAt(rows, slot, i);
    RowWithIdIs(rows, r.prior.assertionId, i);
    AdmittedPair(adapter, g.tables, ops, g.epoch + 1);
    SupersessionResult(r.planner, adapter, g.tables, r.prior, r.next, r.trigger, g.epoch + 1);
    var a := Dumped(r.next).(epoch := g.epoch + 1);
    ReplacingKeepsOrder(rows, slot, g.epoch, i, r.next.recordedAt, a);
  }

  lemma AdmittedPair(adapter: Adapter, t: Tables, ops: seq<Operation>, newEpoch: nat)
    requires |ops| == 2 && RunOps(adapter, t, ops, newEpoch).Ran?
    ensures ops[0].opType in adapter.implemented && ops[1].opType in adapter.implemented
  {
    var mid := ApplyOp(adapter, t, ops[0], newEpoch).tables;
    assert ops[1..][0] == ops[1];
    assert RunOps(adapter, mid, ops[1..], newEpoch).Ran?;
  }

  /* ---------- every other plan ---------- */

  predicate HoldsId(rows: seq<Assertion>, slot: Slot, id: Id) {
    exists row <- rows :: Of(slot, row) && row.assertionId == id
  }

  /** The operation neither adds to the slot nor names one of its records. */
  predicate LeavesAlone(rows: seq<Assertion>, slot: Slot, op: Operation) {
    match op.payload
    case AssertionDump(a) => op.opType == ATTACH_ASSERTION ==> !Of(slot, a) && !HoldsId(rows, slot, a.assertionId)
    case StatusChange(id, _, _, _, _) => op.opType == RETRACT_ASSERTION ==> !HoldsId(rows, slot, id)
    case _ => true
  }

  /** The slot's rows are what and where they were, and still own their ids. */
  predicate Untouched(rows: seq<Assertion>, later: seq<Assertion>, slot: Slot) {
    && |rows| <= |later|
    && (forall k :: 0 <= k < |rows| && Of(slot, rows[k]) ==> later[k] == rows[k])
    && (forall k :: 0 <= k < |later| && Of(slot, later[k]) ==> k < |rows| && Of(slot, rows[k]))
    && OwnIds(later, slot)
  }

  lemma RowIsHeld(rows: seq<Assertion>, slot: Slot, k: nat)
    requires k < |rows| && Of(slot, rows[k])
    ensures HoldsId(rows, slot, rows[k].assertionId)
  {
    assert rows[k] in rows;
  }

  lemma StepLeavesAlone(adapter: Adapter, t: Tables, slot: Slot, op: Operation, newEpoch: nat)
    requires OwnIds(t.rows, slot) && LeavesAlone(t.rows, slot, op) && ApplyOp(adapter, t, op, newEpoch).Ran?
    ensures Untouched(t.rows, ApplyOp(adapter, t, op, newEpoch).tables.rows, slot)
  {
    var rows, after := t.rows, ApplyOp(adapter, t, op, newEpoch).tables.rows;
    forall k | 0 <= k < |rows| && Of(slot, rows[k]) ensures HoldsId(rows, slot, rows[k].assertionId) {
      RowIsHeld(rows, slot, k);
    }
  }

  lemma UntouchedLeavesAlone(rows: seq<Assertion>, later: seq<Assertion>, slot: Slot, op: Operation)
    requires Untouched(rows, later, slot) && LeavesAlone(rows, slot, op)
    ensures LeavesAlone(later, slot, op)
  {
    forall id | HoldsId(later, slot, id) ensures HoldsId(rows, slot, id) {
      var row :| row in later && Of(slot, row) && row.assertionId == id;
      var k :| 0 <= k < |later| && later[k] == row;
      RowIsHeld(rows, slot, k);
    }
  }

  lemma {:induction false} RunLeavesAlone(adapter: Adapter, t: Tables, slot: Slot, ops: seq<Operation>, newEpoch: nat)
    requires OwnIds(t.rows, slot) && RunOps(adapter, t, ops, newEpoch).Ran?
    requires forall op <- ops :: LeavesAlone(t.rows, slot, op)
    ensures Untouched(t.rows, RunOps(adapter, t, ops, newEpoch).tables.rows, slot)
    decreases ops
  {
    if ops != [] {
      var mid := ApplyOp(adapter, t, ops[0], newEpoch).tables;
      StepLeavesAlone(adapter, t, slot, ops[0], newEpoch);
      forall op <- ops[1..] ensures LeavesAlone(mid.rows, slot, op) {
        UntouchedLeavesAlone(t.rows, mid.rows, slot, op);
      }
      RunLeavesAlone(adapter, mid, slot, ops[1..], newEpoch);
    }
  }

  lemma UntouchedKeepsOrder(rows: seq<Assertion>, later: seq<Assertion>, slot: Slot, epoch: nat)
    requires InOrder(rows, slot, epoch) && Untouched(rows, later, slot)
    ensures InOrder(later, slot, epoch + 1) && HistoryKept(rows, later, slot)
  {
    var live :| LiveAt(rows, slot, live);
    assert LiveAt(later, slot, live);
    forall k | LiveAt(later, slot, k) ensures LiveAt(rows, slot, k) {
    }
    forall k | 0 <= k < |later| && Of(slot, later[k]) && later[k].status != ACTIVE ensures Replaced(later, slot, k) {
      assert later[k] == rows[k] && Replaced(rows, slot, k);
      var j := RowWithId(rows, rows[k].supersededBy.value);
      OwnRow(later, slot, j);
    }
  }

  lemma OwnRow(rows: seq<Assertion>, slot: Slot, j: nat)
    requires OwnIds(rows, slot) && j < |rows| && Of(slot, rows[j])
    ensures RowWithId(rows, rows[j].assertionId) == j
  {
    RowWithIdIs(rows, rows[j].assertionId, j);
  }

  /* ---------- the protocol ---------- */

  /** Every call of the run either executes a supersession of the slot that was planned from
      the graph at an earlier moment, stamped with that moment's epoch, or leaves the slot
      alone if it commits. */
  ghost predicate Protocol(cfg: Config, ws: seq<World>, calls: seq<Call>, views: seq<Option<Read>>, slot: Slot)
    requires |ws| == |calls| + 1
  {
    |views| == |calls| && forall i :: 0 <= i < |calls| ==> Follows(cfg, ws, calls[i], i, views[i], slot)
  }

  ghost predicate Follows(cfg: Config, ws: seq<World>, call: Call, i: nat, read: Option<Read>, slot: Slot)
    requires i < |ws|
  {
    match read
    case Some(r) =>
      && r.moment <= i && Saw(ws[r.moment].graph.tables.rows, slot, r)
      && r.planner.snapshotVersion == Decimal(ws[r.moment].graph.epoch)
      && call.plan == PlanSupersession(r.planner, r.prior, r.next, r.trigger).value.plan
    case None =>
      Commits(cfg, ws[i].graph, call.plan) ==>
        forall op <- call.plan.operations :: LeavesAlone(ws[i].graph.tables.rows, slot, op)
  }

  /** A supersession that commits sees the graph it was planned on. */
  lemma CommitSeesItsRead(cfg: Config, ws: seq<World>, calls: seq<Call>, i: nat, r: Read, slot: Slot)
    requires cfg.hasReader && IsRun(cfg, ws, calls) && i < |calls|
    requires Follows(cfg, ws, calls[i], i, Some(r), slot) && Commits(cfg, ws[i].graph, calls[i].plan)
    ensures ws[i].graph == ws[r.moment].graph
  {
    var plan := calls[i].plan;
    assert plan.preconditions[0] in plan.preconditions;
    CommitAtSnapshot(cfg, ws[i].graph, plan, r.planner.snapshotVersion);
    DecimalInjective(ws[i].graph.epoch, ws[r.moment].graph.epoch);
    RunAdvances(cfg, ws, calls, r.moment, i);
  }

  lemma CallKeepsOrder(cfg: Config, ws: seq<World>, calls: seq<Call>, views: seq<Option<Read>>, slot: Slot, i: nat)
    requires cfg.hasReader && IsRun(cfg, ws, calls) && Protocol(cfg, ws, calls, views, slot) && i < |calls|
    requires InOrder(ws[i].graph.tables.rows, slot, ws[i].graph.epoch)
    ensures InOrder(ws[i + 1].graph.tables.rows, slot, ws[i + 1].graph.epoch)
    ensures HistoryKept(ws[i].graph.tables.rows, ws[i + 1].graph.tables.rows, slot)
  {
    var g, call := ws[i].graph, calls[i];
    ExecuteGraph(cfg, ws[i], call.plan, call.comp);
    AttemptCases(cfg, g, call.plan, call.comp);
    assert ws[i + 1].graph == Attempt(cfg, g, call.plan, call.comp).0;
    if Commits(cfg, g, call.plan) {
      CommitFacts(cfg, g, call.plan, call.comp);
      assert Follows(cfg, ws, call, i, views[i], slot);
      if views[i].Some? {
        CommitSeesItsRead(cfg, ws, calls, i, views[i].value, slot);
        SupersessionKeepsOrder(cfg.adapter, g, slot, views[i].value);
      } else {
        RunLeavesAlone(cfg.adapter, g.tables, slot, call.plan.operations, g.epoch + 1);
        UntouchedKeepsOrder(g.tables.rows, ws[i + 1].graph.tables.rows, slot, g.epoch);
      }
    }
  }

  ghost predicate OrderAt(w: World, slot: Slot) { InOrder(w.graph.tables.rows, slot, w.graph.epoch) }

  ghost predicate Keeps(w: World, next: World, slot: Slot) {
    OrderAt(w, slot) ==> OrderAt(next, slot) && HistoryKept(w.graph.tables.rows, next.graph.tables.rows, slot)
  }

  ghost predicate AllKeep(ws: seq<World>, slot: Slot) {
    forall i :: 0 <= i < |ws| - 1 ==> Keeps(ws[i], ws[i + 1], slot)
  }

  lemma EveryCallKeeps(cfg: Config, ws: seq<World>, calls: seq<Call>, views: seq<Option<Read>>, slot: Slot)
    requires cfg.hasReader && IsRun(cfg, ws, calls) && Protocol(cfg, ws, calls, views, slot)
    ensures AllKeep(ws, slot)
  {
    forall i | 0 <= i < |calls| ensures Keeps(ws[i], ws[i + 1], slot) {
      if OrderAt(ws[i], slot) { CallKeepsOrder(cfg, ws, calls, views, slot, i); }
    }
  }

  lemma {:induction false} OrderThroughout(ws: seq<World>, slot: Slot, i: nat)
    requires AllKeep(ws, slot) && i < |ws| && OrderAt(ws[0], slot)
    ensures OrderAt(ws[i], slot)
  {
    if i > 0 {
      OrderThroughout(ws, slot, i - 1);
      assert Keeps(ws[i - 1], ws[i], slot);
    }
  }

  lemma {:induction false} HistoryThroughout(ws: seq<World>, slot: Slot, i: nat, j: nat)
    requires AllKeep(ws, slot) && i <= j < |ws| && OrderAt(ws[0], slot)
    ensures HistoryKept(ws[i].graph.tables.rows, ws[j].graph.tables.rows, slot)
    decreases j
  {
    if i < j {
      HistoryThroughout(ws, slot, i, j - 1);
      OrderThroughout(ws, slot, j - 1);
      assert Keeps(ws[j - 1], ws[j], slot);
      KeptTwice(ws[i].graph.tables.rows, ws[j - 1].graph.tables.rows, ws[j].graph.tables.rows, slot);
    }
  }

  /** At every moment of every run the fact is in good order: exactly one live record, and
      every other one replaced by a later one of a later epoch. */
  lemma ProtocolKeepsOrder(cfg: Config, ws: seq<World>, calls: seq<Call>, views: seq<Option<Read>>, slot: Slot, i: nat)
    requires cfg.hasReader && IsRun(cfg, ws, calls) && Protocol(cfg, ws, calls, views, slot) && i <= |calls|
    requires InOrder(ws[0].graph.tables.rows, slot, ws[0].graph.epoch)
    ensures InOrder(ws[i].graph.tables.rows, slot, ws[i].graph.epoch)
  {
    EveryCallKeeps(cfg, ws, calls, views, slot);
    OrderThroughout(ws, slot, i);
  }

  /** No record's retirement is ever rewritten, and nothing else about a record ever changes:
      between any two moments the fact's rows are kept. */
  lemma HistoryIsNeverRewritten(cfg: Config, ws: seq<World>, calls: seq<Call>, views: seq<Option<Read>>, slot: Slot,
                                i: nat, j: nat)
    requires cfg.hasReader && IsRun(cfg, ws, calls) && Protocol(cfg, ws, calls, views, slot) && i <= j <= |calls|
    requires InOrder(ws[0].graph.tables.rows, slot, ws[0].graph.epoch)
    ensures HistoryKept(ws[i].graph.tables.rows, ws[j].graph.tables.rows, slot)
  {
    EveryCallKeeps(cfg, ws, calls, views, slot);
    HistoryThroughout(ws, slot, i, j);
  }

  lemma KeptTwice(a: seq<Assertion>, b: seq<Assertion>, c: seq<Assertion>, slot: Slot)
    requires HistoryKept(a, b, slot) && HistoryKept(b, c, slot)
    ensures HistoryKept(a, c, slot)
  {
    forall k | 0 <= k < |a| && Of(slot, a[k]) ensures c[k] == a[k] || (a[k].status == ACTIVE && IsRetired(a[k], c[k])) {
      assert b[k] == a[k] || IsRetired(a[k], b[k]);
      assert Of(slot, b[k]);
    }
  }

  /* ---------- plans that are not overtaken ---------- */

  lemma OneAttachNoConflict(a: Operation)
    ensures SelfConflicts([a]) == []
  {
    assert [a][1..] == [];
    assert Minted([a]) == MintedBy(a) + Minted([]);
    SelfConflictIff([a]);
  }

  lemma AttachAndRetireNoConflict(a: Operation, b: Operation)
    requires b.opType == RETRACT_ASSERTION
    ensures SelfConflicts([a, b]) == []
  {
    assert [a, b][1..] == [b] && [b][1..] == [];
    assert Minted([b]) == MintedBy(b) + Minted([]);
    assert Minted([a, b]) == MintedBy(a) + Minted([b]);
    SelfConflictIff([a, b]);
  }

  lemma SupersessionRuns(cfg: Config, g: GraphState, slot: Slot, r: Read)
    requires Admits(cfg, ATTACH_ASSERTION) && Admits(cfg, RETRACT_ASSERTION)
    requires OwnIds(g.tables.rows, slot) && Saw(g.tables.rows, slot, r)
    ensures var ops := PlanSupersession(r.planner, r.prior, r.next, r.trigger).value.plan.operations;
            RunOps(cfg.adapter, g.tables, ops, g.epoch + 1).Ran?
  {
    var rows := g.tables.rows;
    var i :| 0 <= i < |rows| && rows[i] == r.prior;
    OwnRow(rows, slot, i);
    SupersessionResult(r.planner, cfg.adapter, g.tables, r.prior, r.next, r.trigger, g.epoch + 1);
  }

  /** A client that reads the graph and executes before anyone else commits is never refused:
      the protocol always lets the next supersession through. */
  lemma FreshReadCommits(cfg: Config, g: GraphState, slot: Slot, r: Read)
    requires Admits(cfg, ATTACH_ASSERTION) && Admits(cfg, RETRACT_ASSERTION)
    requires InOrder(g.tables.rows, slot, g.epoch) && Saw(g.tables.rows, slot, r)
    requires r.planner.snapshotVersion == Decimal(g.epoch)
    ensures Commits(cfg, g, PlanSupersession(r.planner, r.prior, r.next, r.trigger).value.plan)
  {
    var plan := PlanSupersession(r.planner, r.prior, r.next, r.trigger).value.plan;
    SupersessionRuns(cfg, g, slot, r);
    AttachAndRetireNoConflict(plan.operations[0], plan.operations[1]);
    NotOvertakenCommits(cfg, g, plan);
  }

  /** A first record brings a slot into good order: attached at the current epoch under a new
      id, it commits, and it is the slot's one live record. */
  lemma FirstRecordStartsOrder(cfg: Config, g: GraphState, slot: Slot, p: Planner, a: Assertion, t: Trigger)
    requires Admits(cfg, ATTACH_ASSERTION) && p.snapshotVersion == Decimal(g.epoch)
    requires Of(slot, a) && a.status == ACTIVE && a.supersededAt == None && a.supersededBy == None
    requires forall row <- g.tables.rows :: !Of(slot, row)
    requires RowWithId(g.tables.rows, a.assertionId) == |g.tables.rows|
    ensures var plan := PlanRelabel(p, a, t).plan;
            && Commits(cfg, g, plan)
            && var next := Attempt(cfg, g, plan, false).0;
            InOrder(next.tables.rows, slot, next.epoch)
  {
    var plan, rows := PlanRelabel(p, a, t).plan, g.tables.rows;
    var op, b := AttachOp(p, t, a), Dumped(a).(epoch := g.epoch + 1);
    AttachFresh(p, cfg.adapter, g.tables, a, t, g.epoch + 1);
    RunSingle(cfg.adapter, g.tables, op, g.epoch + 1);
    OneAttachNoConflict(op);
    NotOvertakenCommits(cfg, g, plan);
    CommitFacts(cfg, g, plan, false);
    AttemptCases(cfg, g, plan, false);
    OnlyRowIsInOrder(rows, slot, b, g.epoch + 1);
  }

  lemma OnlyRowIsInOrder(rows: seq<Assertion>, slot: Slot, b: Assertion, epoch: nat)
    requires Of(slot, b) && b.status == ACTIVE && b.supersededAt == None && b.supersededBy == None && b.epoch == epoch
    requires (forall row <- rows :: !Of(slot, row)) && RowWithId(rows, b.assertionId) == |rows|
    ensures InOrder(rows + [b], slot, epoch)
  {
    assert forall k :: 0 <= k < |rows| ==> (rows + [b])[k] == rows[k] && rows[k] in rows;
    assert LiveAt(rows + [b], slot, |rows|);
  }

  /* ---------- following the pointers ---------- */

  /** The row reached by following `superseded_by` until a live one. */
  function Chase(rows: seq<Assertion>, slot: Slot, i: nat): (k: nat)
    requires i < |rows| && Of(slot, rows[i]) && AllReplaced(rows, slot)
    decreases |rows| - i
  {
    if rows[i].status == ACTIVE then i
    else
      assert Replaced(rows, slot, i);
      Chase(rows, slot, RowWithId(rows, rows[i].supersededBy.value))
  }

  /** From any record of the fact the pointers lead to its one live record, through ever later
      epochs. */
  lemma {:induction false} ChaseFindsLive(rows: seq<Assertion>, slot: Slot, epoch: nat, i: nat, live: nat)
    requires InOrder(rows, slot, epoch) && i < |rows| && Of(slot, rows[i]) && LiveAt(rows, slot, live)
    ensures Chase(rows, slot, i) == live
    ensures i == live || rows[i].epoch < rows[live].epoch
    decreases |rows| - i
  {
    if rows[i].status == ACTIVE {
      assert LiveAt(rows, slot, i);
    } else {
      assert Replaced(rows, slot, i);
      ChaseFindsLive(rows, slot, epoch, RowWithId(rows, rows[i].supersededBy.value), live);
    }
  }

  /* ---------- runs of derived ids ---------- */

  predicate AllDerived(p: Planner, rows: seq<Assertion>) { forall a <- rows :: Derived(p, a) }

  /** Every record the plan attaches has the id its own content, as dumped, gives. */
  predicate AttachesDerived(p: Planner, plan: Plan) { forall op <- plan.operations :: AttachIsDerived(p, op) }

  predicate AttachIsDerived(p: Planner, op: Operation) {
    op.opType == ATTACH_ASSERTION && op.payload.AssertionDump? ==> Derived(p, op.payload.assertion)
  }

  lemma SeedIgnoresStatus(p: Planner, a: Assertion, b: Assertion)
    requires Derived(p, a) && a.assertionId == b.assertionId
    requires a.subject == b.subject && a.attribute == b.attribute && a.content == b.content
    ensures Derived(p, b)
  {
  }

  lemma StepKeepsDerived(p: Planner, adapter: Adapter, t: Tables, op: Operation, newEpoch: nat)
    requires AllDerived(p, t.rows) && AttachIsDerived(p, op) && ApplyOp(adapter, t, op, newEpoch).Ran?
    ensures AllDerived(p, ApplyOp(adapter, t, op, newEpoch).tables.rows)
  {
    var next := ApplyOp(adapter, t, op, newEpoch).tables;
    match op.opType
    case ATTACH_ASSERTION =>
      SeedIgnoresStatus(p, op.payload.assertion, op.payload.assertion.(epoch := newEpoch));
    case RETRACT_ASSERTION =>
      var i := RowWithId(t.rows, op.payload.assertionId);
      if i < |t.rows| { SeedIgnoresStatus(p, t.rows[i], next.rows[i]); }
    case _ =>
  }

  lemma {:induction false} RunKeepsDerived(p: Planner, adapter: Adapter, t: Tables, ops: seq<Operation>, newEpoch: nat)
    requires AllDerived(p, t.rows) && RunOps(adapter, t, ops, newEpoch).Ran?
    requires forall op <- ops :: AttachIsDerived(p, op)
    ensures AllDerived(p, RunOps(adapter, t, ops, newEpoch).tables.rows)
    decreases ops
  {
    if ops != [] {
      assert ops[0] in ops;
      StepKeepsDerived(p, adapter, t, ops[0], newEpoch);
      RunKeepsDerived(p, adapter, ApplyOp(adapter, t, ops[0], newEpoch).tables, ops[1..], newEpoch);
    }
  }

  lemma AttemptKeepsDerived(p: Planner, cfg: Config, g: GraphState, plan: Plan, comp: bool)
    requires AllDerived(p, g.tables.rows) && AttachesDerived(p, plan)
    ensures AllDerived(p, Attempt(cfg, g, plan, comp).0.tables.rows)
  {
    AttemptCases(cfg, g, plan, comp);
    if Commits(cfg, g, plan) {
      CommitFacts(cfg, g, plan, comp);
      RunKeepsDerived(p, cfg.adapter, g.tables, plan.operations, g.epoch + 1);
    }
  }

  ghost predicate StayDerived(p: Planner, ws: seq<World>) {
    forall k :: 0 <= k < |ws| - 1 && AllDerived(p, ws[k].graph.tables.rows) ==>
                  AllDerived(p, ws[k + 1].graph.tables.rows)
  }

  lemma {:induction false} DerivedAlong(p: Planner, ws: seq<World>, i: nat)
    requires StayDerived(p, ws) && i < |ws| && AllDerived(p, ws[0].graph.tables.rows)
    ensures AllDerived(p, ws[i].graph.tables.rows)
  {
    if i > 0 { DerivedAlong(p, ws, i - 1); }
  }

  /** Over any run whose plans attach derived records, every row has the id its own content
      gives. */
  lemma DerivedThroughout(p: Planner, cfg: Config, ws: seq<World>, calls: seq<Call>, i: nat)
    requires IsRun(cfg, ws, calls) && i <= |calls| && AllDerived(p, ws[0].graph.tables.rows)
    requires forall call <- calls :: AttachesDerived(p, call.plan)
    ensures AllDerived(p, ws[i].graph.tables.rows)
  {
    forall k | 0 <= k < |calls| && AllDerived(p, ws[k].graph.tables.rows)
      ensures AllDerived(p, ws[k + 1].graph.tables.rows)
    {
      ExecuteGraph(cfg, ws[k], calls[k].plan, calls[k].comp);
      AttemptKeepsDerived(p, cfg, ws[k].graph, calls[k].plan, calls[k].comp);
    }
    DerivedAlong(p, ws, i);
  }

  /** So at every moment a minted id is new exactly when the record is: the protocol's freshness
      is that no row, live or retired, is the same record of the same fact. */
  lemma FreshIffNewThroughout(p: Planner, cfg: Config, ws: seq<World>, calls: seq<Call>, i: nat, next: Assertion)
    requires IsRun(cfg, ws, calls) && i <= |calls| && AllDerived(p, ws[0].graph.tables.rows)
    requires forall call <- calls :: AttachesDerived(p, call.plan)
    requires Hexadecimal(p.digest) && Derived(p, next)
    requires forall row <- ws[i].graph.tables.rows :: NoCollision(p, row, next)
    ensures var rows := ws[i].graph.tables.rows;
            RowWithId(rows, next.assertionId) == |rows| <==>
            forall row <- rows :: Renderable(row) && Renderable(next) ==>
              !(FactOf(p.digest, row) == FactOf(p.digest, next) && SameRecord(row.content, next.content))
  {
    DerivedThroughout(p, cfg, ws, calls, i);
    IdIsNewIffRecordIs(p, ws[i].graph.tables.rows, next);
  }

  /** A supersession attaches a derived record, if its successor is one with a JSON value; so
      is every one that `next_record` makes. */
  lemma SupersessionAttachesDerived(p: Planner, q: Planner, prior: Assertion, next: Assertion, t: Trigger)
    requires Derived(p, next) && next.content.objectValue.Native? && PlanSupersession(q, prior, next, t).Ok?
    ensures AttachesDerived(p, PlanSupersession(q, prior, next, t).value.plan)
  {
    SeedIgnoresStatus(p, next, Dumped(next));
  }

  lemma AttachForIsDerived(p: Planner, c: Candidate, subject: Id, attribute: string, content: Content)
    requires content.objectValue.Native? && AttachFor(p, c, subject, attribute, content).Ok?
    ensures AttachIsDerived(p, AttachFor(p, c, subject, attribute, content).value.value)
  {
    var a := RecordOf(p, c, subject, attribute, content).value;
    assert PeriodOf(a.content) == PeriodOf(content) && OriginOf(a.content) == OriginOf(content);
    assert SeedOf(p.digest, a) == RecordSeed(FactKey(p.digest, subject, attribute), content);
    SeedIgnoresStatus(p, a, Dumped(a));
  }

  /** A planner's plan attaches derived records, if the values claimed are JSON values. */
  lemma PlanAttachesDerived(p: Planner, items: seq<Item>)
    requires PlanOf(p, items).Ok? && PlanOf(p, items).value.Some?
    requires forall item <- items :: item.candidate.claim.AttributeClaim? ==> item.candidate.claim.value.Native?
    ensures AttachesDerived(p, PlanOf(p, items).value.value)
  {
    var planned, ops := PlannedOf(p, items).value, PlanOf(p, items).value.value.operations;
    PlanningKeepsOrder(p, items);
    forall op <- ops ensures AttachIsDerived(p, op) {
      var k :| 0 <= k < |ops| && ops[k] == op;
      assert planned[k] in planned && ItemsOf(planned)[k] == planned[k].item;
      Sequences.FilterHas(items, Asks(p), planned[k].item);
      OperationIsDerived(p, planned[k].item);
    }
  }

  lemma OperationIsDerived(p: Planner, item: Item)
    requires OperationOf(p, item).Ok? && OperationOf(p, item).value.Some?
    requires item.candidate.claim.AttributeClaim? ==> item.candidate.claim.value.Native?
    ensures AttachIsDerived(p, OperationOf(p, item).value.value)
  {
    var c, identity := item.candidate, item.resolution.identity;
    match c.claim
    case AttributeClaim(attribute, value, period) =>
      AttachForIsDerived(p, c, identity.value, attribute, ContentOf(c, value, None, period));
    case RelationClaim(relationType, object_, period) =>
      AttachForIsDerived(p, c, identity.value, relationType, ContentOf(c, Native(Null), object_, period));
    case _ =>
  }

  /* ---------- exactly when history is safe ---------- */

  predicate RetiredRowsFixed(rows: seq<Assertion>, later: seq<Assertion>, subject: Id) {
    |rows| <= |later| &&
    forall k :: 0 <= k < |rows| && rows[k].subject == subject && rows[k].status == SUPERSEDED ==> later[k] == rows[k]
  }

  /** In a table of derived ids a minted id is new exactly when the record is: no row, live or
      retired, is the same record of the same fact. */
  lemma IdIsNewIffRecordIs(p: Planner, rows: seq<Assertion>, next: Assertion)
    requires Hexadecimal(p.digest) && Derived(p, next)
    requires forall row <- rows :: Derived(p, row) && NoCollision(p, row, next)
    ensures RowWithId(rows, next.assertionId) == |rows| <==>
            forall row <- rows :: Renderable(row) && Renderable(next) ==>
              !(FactOf(p.digest, row) == FactOf(p.digest, next) && SameRecord(row.content, next.content))
  {
    forall row <- rows ensures Renderable(row) && Renderable(next) &&
      (row.assertionId == next.assertionId <==>
       FactOf(p.digest, row) == FactOf(p.digest, next) && SameRecord(row.content, next.content))
    {
      DerivedIdIff(p, row, next);
    }
    var i := RowWithId(rows, next.assertionId);
    if i < |rows| {
      assert rows[i] in rows;
    } else {
      assert forall row <- rows :: row.assertionId != next.assertionId;
    }
  }

  /** What a supersession of a row as it stands leaves on a store that attaches by id, whether
      or not the successor's id is new. */
  lemma OverwritingResult(p: Planner, adapter: Adapter, g: Tables, prior: Assertion, next: Assertion, t: Trigger,
                          newEpoch: nat)
    requires adapter.upserts && PlanSupersession(p, prior, next, t).Ok?
    requires ATTACH_ASSERTION in adapter.implemented && RETRACT_ASSERTION in adapter.implemented
    requires RowWithId(g.rows, prior.assertionId) < |g.rows| && g.rows[RowWithId(g.rows, prior.assertionId)] == prior
    ensures var r, i := PlanSupersession(p, prior, next, t).value, RowWithId(g.rows, prior.assertionId);
            var attached := Attach(true, g.rows, Dumped(next).(epoch := newEpoch));
            && i < |attached|
            && RunOps(adapter, g, r.plan.operations, newEpoch) == Ran(g.(rows := attached[i := r.superseded[0]]))
  {
    var i, a := RowWithId(g.rows, prior.assertionId), Dumped(next).(epoch := newEpoch);
    var mid := g.(rows := Attach(true, g.rows, a));
    assert ApplyOp(adapter, g, AttachOp(p, t, next), newEpoch) == Ran(mid);
    assert mid.rows[i] == prior;
    RowWithIdIs(mid.rows, prior.assertionId, i);
    RetireRow(p, adapter, mid, prior, next, t, newEpoch);
    RunPair(adapter, g, mid, AttachOp(p, t, next), RetireOp(p, t, prior, next), newEpoch);
  }

  /** A supersession of a live row leaves the subject's retired rows as they are exactly when
      the successor's id does not name one of them: the store overwrites the row it finds. */
  lemma HistorySafeIff(p: Planner, adapter: Adapter, g: Tables, prior: Assertion, next: Assertion, t: Trigger,
                       newEpoch: nat)
    requires adapter.upserts && PlanSupersession(p, prior, next, t).Ok? && next.status == ACTIVE
    requires ATTACH_ASSERTION in adapter.implemented && RETRACT_ASSERTION in adapter.implemented
    requires RowWithId(g.rows, prior.assertionId) < |g.rows| && g.rows[RowWithId(g.rows, prior.assertionId)] == prior
    ensures var ops := PlanSupersession(p, prior, next, t).value.plan.operations;
            var h := RowOf(g.rows, next.subject, next.assertionId);
            && RunOps(adapter, g, ops, newEpoch).Ran?
            && (RetiredRowsFixed(g.rows, RunOps(adapter, g, ops, newEpoch).tables.rows, next.subject) <==>
                !(h < |g.rows| && g.rows[h].status == SUPERSEDED))
  {
    var h, i := RowOf(g.rows, next.subject, next.assertionId), RowWithId(g.rows, prior.assertionId);
    OverwritingResult(p, adapter, g, prior, next, t, newEpoch);
    var after := RunOps(adapter, g, PlanSupersession(p, prior, next, t).value.plan.operations, newEpoch).tables.rows;
    assert forall k :: 0 <= k < |g.rows| && k != i && k != h ==> after[k] == g.rows[k];
    if h < |g.rows| { assert after[h] == Dumped(next).(epoch := newEpoch); }
  }

  /* ---------- the way back rewrites history ---------- */

  /** A supersession planned on the graph as it is. */
  function PlanAt(p: Planner, g: GraphState, prior: Assertion, next: Assertion, t: Trigger)
    : Result<EvolutionResult, EvolutionError>
  {
    PlanSupersession(p.(snapshotVersion := Decimal(g.epoch)), prior, next, t)
  }

  /** The graph after it, if it is planned and commits. */
  function Superseded(cfg: Config, p: Planner, g: GraphState, prior: Assertion, next: Assertion, t: Trigger)
    : Option<GraphState>
  {
    match PlanAt(p, g, prior, next, t)
    case Err(_) => None
    case Ok(r) => if Commits(cfg, g, r.plan) then Some(Attempt(cfg, g, r.plan, false).0) else None
  }

  /** A planned supersession that the store can run commits on the graph it is planned on. */
  lemma PlannedHereCommits(cfg: Config, p: Planner, g: GraphState, prior: Assertion, next: Assertion, t: Trigger)
    requires Admits(cfg, ATTACH_ASSERTION) && Admits(cfg, RETRACT_ASSERTION) && PlanAt(p, g, prior, next, t).Ok?
    requires RunOps(cfg.adapter, g.tables, PlanAt(p, g, prior, next, t).value.plan.operations, g.epoch + 1).Ran?
    ensures var s := Superseded(cfg, p, g, prior, next, t);
            && s.Some? && s.value.epoch == g.epoch + 1
            && RunOps(cfg.adapter, g.tables, PlanAt(p, g, prior, next, t).value.plan.operations, g.epoch + 1)
               == Ran(s.value.tables)
  {
    var plan := PlanAt(p, g, prior, next, t).value.plan;
    AttachAndRetireNoConflict(plan.operations[0], plan.operations[1]);
    NotOvertakenCommits(cfg, g, plan);
    CommitFacts(cfg, g, plan, false);
    AttemptCases(cfg, g, plan, false);
  }

  /** The first step: a successor under a new id goes in behind, and its prior is retired in
      place. */
  lemma StepAway(cfg: Config, p: Planner, g: GraphState, slot: Slot, h: nat, next: Assertion, t: Trigger)
    requires Admits(cfg, ATTACH_ASSERTION) && Admits(cfg, RETRACT_ASSERTION)
    requires OwnIds(g.tables.rows, slot) && LiveAt(g.tables.rows, slot, h) && Of(slot, next)
    requires RowWithId(g.tables.rows, next.assertionId) == |g.tables.rows|
    ensures var rows, s := g.tables.rows, Superseded(cfg, p, g, g.tables.rows[h], next, t);
            && s.Some? && s.value.epoch == g.epoch + 1
            && s.value.tables.rows == rows[h := Retired(rows[h], next.recordedAt, Some(next.assertionId))]
                                      + [Dumped(next).(epoch := g.epoch + 1)]
  {
    var q, prior := p.(snapshotVersion := Decimal(g.epoch)), g.tables.rows[h];
    OwnRow(g.tables.rows, slot, h);
    assert prior.assertionId != next.assertionId;
    SupersessionResult(q, cfg.adapter, g.tables, prior, next, t, g.epoch + 1);
    PlannedHereCommits(cfg, p, g, prior, next, t);
  }

  /** The second step: where the successor's id is that of an earlier row, it commits as well,
      and overwrites that row. */
  lemma StepBack(cfg: Config, p: Planner, g: GraphState, slot: Slot, h: nat, k: nat, next: Assertion, t: Trigger)
    requires Admits(cfg, ATTACH_ASSERTION) && Admits(cfg, RETRACT_ASSERTION) && cfg.adapter.upserts
    requires OwnIds(g.tables.rows, slot) && LiveAt(g.tables.rows, slot, k)
    requires h < |g.tables.rows| && h != k && Of(slot, g.tables.rows[h])
    requires Of(slot, next) && next.assertionId == g.tables.rows[h].assertionId
    ensures var s := Superseded(cfg, p, g, g.tables.rows[k], next, t);
            && s.Some? && s.value.epoch == g.epoch + 1 && |s.value.tables.rows| == |g.tables.rows|
            && s.value.tables.rows[h] == Dumped(next).(epoch := g.epoch + 1)
  {
    var q, prior := p.(snapshotVersion := Decimal(g.epoch)), g.tables.rows[k];
    OwnRow(g.tables.rows, slot, k);
    OwnRow(g.tables.rows, slot, h);
    RowOfIs(g.tables.rows, next.subject, next.assertionId, h);
    assert prior.assertionId != next.assertionId;
    OverwritingResult(q, cfg.adapter, g.tables, prior, next, t, g.epoch + 1);
    PlannedHereCommits(cfg, p, g, prior, next, t);
  }

  /** From every graph in which a fact is in good order, with a live record of derived id and
      JSON value: citing one more source and then, on the record as stored, the first sources
      again, each planned on the graph as it is, both commit.  The first step retires the
      record; the second overwrites that very row, and with it when it was retired and in
      favour of what. */
  lemma WayBackRewritesHistory(cfg: Config, p: Planner, g: GraphState, slot: Slot, h: nat, ref: EvidenceRef,
                               at: Instant, later: Instant, t: Trigger, u: Trigger)
    requires Admits(cfg, ATTACH_ASSERTION) && Admits(cfg, RETRACT_ASSERTION) && cfg.adapter.upserts
    requires InOrder(g.tables.rows, slot, g.epoch) && LiveAt(g.tables.rows, slot, h)
    requires Hexadecimal(p.digest) && Derived(p, g.tables.rows[h]) && g.tables.rows[h].content.objectValue.Native?
    requires var second := NextRecord(p, g.tables.rows[h], Citing(g.tables.rows[h].content.evidence + [ref], at));
             second.Ok? ==> RowWithId(g.tables.rows, second.value.assertionId) == |g.tables.rows|
    ensures var first := g.tables.rows[h];
            var second := NextRecord(p, first, Citing(first.content.evidence + [ref], at));
            && second.Ok?
            && var once := Superseded(cfg, p, g, first, second.value, t);
            && once.Some? && |once.value.tables.rows| == |g.tables.rows| + 1
            && once.value.tables.rows[h] == Retired(first, at, Some(second.value.assertionId))
            && var stored := once.value.tables.rows[|g.tables.rows|];
            var third := NextRecord(p, stored, Citing(first.content.evidence, later));
            && third.Ok?
            && var twice := Superseded(cfg, p, once.value, stored, third.value, u);
            && twice.Some? && |twice.value.tables.rows| == |once.value.tables.rows|
            && var rewritten := twice.value.tables.rows[h];
            && rewritten.assertionId == first.assertionId && rewritten.status == ACTIVE
            && rewritten.supersededAt == None && rewritten.supersededBy == None
            && !HistoryKept(once.value.tables.rows, twice.value.tables.rows, slot)
  {
    var rows, first := g.tables.rows, g.tables.rows[h];
    var away, back := Citing(first.content.evidence + [ref], at), Citing(first.content.evidence, later);
    WayBackIsOpen(p, first, ref, at, Successor(first, away), later);
    var second := NextRecord(p, first, away).value;
    NextRecordIsNew(p, first, away);
    StepAway(cfg, p, g, slot, h, second, t);
    var once := Superseded(cfg, p, g, first, second, t).value;
    ReplacingKeepsOrder(rows, slot, g.epoch, h, at, Dumped(second).(epoch := g.epoch + 1));
    var stored := once.tables.rows[|rows|];
    assert stored == Dumped(second).(epoch := g.epoch + 1);
    assert once.tables.rows[h] == Retired(first, at, Some(second.assertionId));
    WayBackIsOpen(p, first, ref, at, stored, later);
    var third := NextRecord(p, stored, back).value;
    NextRecordIsNew(p, stored, back);
    StepBack(cfg, p, once, slot, h, |rows|, third, u);
  }
}
