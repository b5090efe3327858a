/** What an attempt reports (src/kgcs/executor/executor.py): the outcome of every plan, told
    from the plan, the graph and the adapter. */
module Outcomes {
  import opened Wrappers
  import opened Contracts
  import opened Numerals
  import opened GraphStore
  import opened Execution
  import opened Runs
  import Rollback

  /** Some operation is of a type the executor does not admit. */
  predicate TypeOutside(cfg: Config, plan: Plan) { exists op <- plan.operations :: op.opType !in cfg.supported }

  function AttachedId(op: Operation): Option<Id> {
    if op.opType == ATTACH_ASSERTION && op.payload.AssertionDump? then Some(op.payload.assertion.assertionId) else None
  }

  /** Two operations attach records with one id, under whatever subjects. */
  predicate MintsTwice(ops: seq<Operation>) {
    exists i, j :: 0 <= i < j < |ops| && AttachedId(ops[i]).Some? && AttachedId(ops[i]) == AttachedId(ops[j])
  }

  /** The guard is false of the graph.  Only an executor with a reader checks snapshots and
      absence; only the store checks versions; nobody checks anything else. */
  predicate IsUnmet(cfg: Config, g: GraphState, p: Precondition) {
    match p.kind
    case SnapshotVersion => cfg.hasReader && p.expected != Decimal(g.epoch)
    case AssertionAbsent =>
      cfg.hasReader
      && exists a <- g.tables.rows :: a.subject == p.subject && a.assertionId == p.expected && a.status != REVOKED
    case EntityVersion => p.expected != Decimal(if p.subject in g.versions then g.versions[p.subject] else 0)
    case OtherKind(_) => false
  }

  predicate IsStale(cfg: Config, g: GraphState, plan: Plan) { exists p <- plan.preconditions :: IsUnmet(cfg, g, p) }

  /** Nothing stands between the plan and the store. */
  predicate Reaches(cfg: Config, g: GraphState, plan: Plan) {
    plan.operations != [] && !TypeOutside(cfg, plan) && !MintsTwice(plan.operations) && !IsStale(cfg, g, plan)
  }

  predicate Reports(cfg: Config, g: GraphState, plan: Plan, comp: bool, outcome: Outcome) {
    var record := Attempt(cfg, g, plan, comp).1;
    record.Some? && record.value.outcome == outcome
  }

  /* ---------- the checks, told from the plan ---------- */

  lemma OutsideIff(cfg: Config, plan: Plan)
    ensures UnsupportedTypes(cfg.supported, plan.operations) != {} <==> TypeOutside(cfg, plan)
  {
    forall op <- plan.operations | op.opType !in cfg.supported
      ensures op.opType in UnsupportedTypes(cfg.supported, plan.operations)
    {
    }
  }

  lemma {:induction false} MintsTwiceInMinted(ops: seq<Operation>, i: nat, j: nat)
    requires i < j < |Minted(ops)| && Minted(ops)[i].1 == Minted(ops)[j].1
    ensures MintsTwice(ops)
  {
    var head, rest := MintedBy(ops[0]), Minted(ops[1..]);
    if i >= |head| {
      MintsTwiceInMinted(ops[1..], i - |head|, j - |head|);
      var a, b :| 0 <= a < b < |ops| - 1 && AttachedId(ops[1..][a]).Some?
                  && AttachedId(ops[1..][a]) == AttachedId(ops[1..][b]);
      assert ops[1..][a] == ops[a + 1] && ops[1..][b] == ops[b + 1];
    } else {
      var m := rest[j - |head|];
      MintedComesFrom(ops[1..], m);
      var k :| 0 <= k < |ops| - 1 && MintedBy(ops[1..][k]) == [m];
      assert ops[1..][k] == ops[k + 1] && AttachedId(ops[k + 1]) == Some(m.1) == AttachedId(ops[0]);
    }
  }

  lemma ConflictIff(ops: seq<Operation>)
    ensures SelfConflicts(ops) != [] <==> MintsTwice(ops)
  {
    SelfConflictIff(ops);
    if MintsTwice(ops) && MintsOnce(Minted(ops)) {
      var i, j :| 0 <= i < j < |ops| && AttachedId(ops[i]).Some? && AttachedId(ops[i]) == AttachedId(ops[j]);
      DistinctMints(ops, i, j);
    }
    if !MintsOnce(Minted(ops)) {
      var i, j :| 0 <= i < j < |Minted(ops)| && Minted(ops)[i].1 == Minted(ops)[j].1;
      MintsTwiceInMinted(ops, i, j);
    }
  }

  lemma StaleIff(cfg: Config, g: GraphState, plan: Plan)
    ensures (cfg.hasReader && Unmet(g, plan.preconditions) != []) || FailedOf(g.versions, plan.preconditions) != []
            <==> IsStale(cfg, g, plan)
  {
    var ps := plan.preconditions;
    forall p ensures p in Unmet(g, ps) <==> p in ps && !Met(g, p) { UnmetHas(g, ps, p); }
    forall p ensures p in FailedOf(g.versions, ps) <==> p in ps && !Holds(g.versions, p) {
      FailedNames(g.versions, ps, p);
    }
    if Unmet(g, ps) != [] { assert Unmet(g, ps)[0] in Unmet(g, ps); }
    if FailedOf(g.versions, ps) != [] { assert FailedOf(g.versions, ps)[0] in FailedOf(g.versions, ps); }
  }

  /* ---------- the outcome ---------- */

  /** Every outcome, and when it is reported.  The checks come in this order: empty plans,
      types, records minted twice, guards, and then the store, which may meet an operation it
      does not apply, refuse one, or raise.  What it raises besides escapes the executor, and
      then there is no record. */
  lemma OutcomeIff(cfg: Config, g: GraphState, plan: Plan, comp: bool)
    ensures var run := RunOps(cfg.adapter, g.tables, plan.operations, g.epoch + 1);
            var some, outside, twice := plan.operations != [], TypeOutside(cfg, plan), MintsTwice(plan.operations);
            && (Reports(cfg, g, plan, comp, EMPTY) <==> plan.operations == [])
            && (Reports(cfg, g, plan, comp, UNSUPPORTED_OPERATION) <==>
                some && (outside || (Reaches(cfg, g, plan) && run.Unimplemented?)))
            && (Reports(cfg, g, plan, comp, ERROR) <==>
                some && !outside && (twice || (Reaches(cfg, g, plan) && run.Rejected?)))
            && (Reports(cfg, g, plan, comp, STALE) <==> some && !outside && !twice && IsStale(cfg, g, plan))
            && (Reports(cfg, g, plan, comp, COMMITTED) <==> Reaches(cfg, g, plan) && run.Ran?)
            && (Attempt(cfg, g, plan, comp).1 == None <==> Reaches(cfg, g, plan) && run.Faulted?)
  {
    OutsideIff(cfg, plan);
    ConflictIff(plan.operations);
    StaleIff(cfg, g, plan);
  }

  /** A plan commits exactly where nothing stands in its way and the store can run it. */
  lemma CommitsIff(cfg: Config, g: GraphState, plan: Plan)
    ensures Commits(cfg, g, plan) <==>
            Reaches(cfg, g, plan) && RunOps(cfg.adapter, g.tables, plan.operations, g.epoch + 1).Ran?
  {
    AttemptCases(cfg, g, plan, false);
    OutcomeIff(cfg, g, plan, false);
  }

  /* ---------- the rest of the record ---------- */

  /** The record names the plan and all its operations in order, and says whether it is a
      compensation; it has a new epoch exactly for a commit. */
  lemma RecordNamesPlan(cfg: Config, g: GraphState, plan: Plan, comp: bool)
    requires Attempt(cfg, g, plan, comp).1.Some?
    ensures var record := Attempt(cfg, g, plan, comp).1.value;
            && record.planId == plan.planId && record.isCompensation == comp
            && |record.operationIds| == |plan.operations|
            && (forall i :: 0 <= i < |plan.operations| ==> record.operationIds[i] == plan.operations[i].operationId)
            && record.newEpoch == (if record.outcome == COMMITTED then Some(g.epoch + 1) else None)
  {
  }

  /** The types reported are those outside what the executor admits; where the store stopped,
      those outside what every executor admits by default; and none for any other outcome. */
  lemma UnsupportedTypesIff(cfg: Config, g: GraphState, plan: Plan, comp: bool, t: OpType)
    requires Attempt(cfg, g, plan, comp).1.Some?
    ensures t in Attempt(cfg, g, plan, comp).1.value.unsupportedTypes <==>
            && Reports(cfg, g, plan, comp, UNSUPPORTED_OPERATION)
            && (exists op <- plan.operations :: op.opType == t)
            && if TypeOutside(cfg, plan) then t !in cfg.supported
               else t !in {CREATE_IDENTITY, ATTACH_ASSERTION, REVOKE_IDENTITY, RESTORE_IDENTITY}
  {
    OutsideIff(cfg, plan);
  }

  /* ---------- the attaches a conflict names ---------- */

  lemma {:induction false} CountedIsAttached(ops: seq<Operation>, id: Id)
    ensures Count(Minted(ops), id) > 0 ==> exists i :: 0 <= i < |ops| && AttachedId(ops[i]) == Some(id)
    ensures Count(Minted(ops), id) > 1 ==>
              exists i, j :: 0 <= i < j < |ops| && AttachedId(ops[i]) == Some(id) == AttachedId(ops[j])
  {
    if ops != [] {
      CountedIsAttached(ops[1..], id);
      Rollback.CountAppend(MintedBy(ops[0]), Minted(ops[1..]), id);
      SingleCount(ops[0], id);
      assert forall k :: 0 <= k < |ops| - 1 ==> ops[1..][k] == ops[k + 1];
    }
  }

  lemma SingleCount(op: Operation, id: Id)
    ensures Count(MintedBy(op), id) == if AttachedId(op) == Some(id) then 1 else 0
  {
    if MintedBy(op) != [] { assert MintedBy(op)[1..] == []; }
  }

  lemma {:induction false} AttachedIsCounted(ops: seq<Operation>, i: nat, id: Id)
    requires i < |ops| && AttachedId(ops[i]) == Some(id)
    ensures Count(Minted(ops), id) > 0
    ensures (exists j :: i < j < |ops| && AttachedId(ops[j]) == Some(id)) ==> Count(Minted(ops), id) > 1
  {
    Rollback.CountAppend(MintedBy(ops[0]), Minted(ops[1..]), id);
    SingleCount(ops[0], id);
    if i > 0 {
      assert forall k :: 0 <= k < |ops| - 1 ==> ops[1..][k] == ops[k + 1];
      AttachedIsCounted(ops[1..], i - 1, id);
    } else if j :| 0 < j < |ops| && AttachedId(ops[j]) == Some(id) {
      assert ops[1..][j - 1] == ops[j];
      AttachedIsCounted(ops[1..], j - 1, id);
    }
  }

  lemma {:induction false} RepeatedHas(minted: seq<(Id, Id)>, all: seq<(Id, Id)>, p: Precondition)
    ensures p in Repeated(minted, all) <==> exists m <- minted :: Count(all, m.1) > 1 && p == AbsentGuard(m.0, m.1)
  {
    if minted != [] {
      RepeatedHas(minted[1..], all, p);
      assert forall m :: m in minted <==> m == minted[0] || m in minted[1..];
    }
  }

  /** The guard of an operation's attach; another operation attaches a record with its id. */
  predicate Conflicts(ops: seq<Operation>, i: nat, p: Precondition)
    requires i < |ops|
  {
    && AttachedId(ops[i]).Some?
    && p == Precondition(AssertionAbsent, ops[i].payload.assertion.subject, ops[i].payload.assertion.assertionId)
    && exists j :: 0 <= j < |ops| && j != i && AttachedId(ops[j]) == AttachedId(ops[i])
  }

  lemma ConflictCounted(ops: seq<Operation>, i: nat, p: Precondition)
    requires i < |ops| && Conflicts(ops, i, p)
    ensures Count(Minted(ops), p.expected) > 1 && (p.subject, p.expected) in Minted(ops)
  {
    var j :| 0 <= j < |ops| && j != i && AttachedId(ops[j]) == AttachedId(ops[i]);
    AttachedIsCounted(ops, if i < j then i else j, p.expected);
    MintIsThere(ops, i);
  }

  lemma CountedConflicts(ops: seq<Operation>, m: (Id, Id)) returns (i: nat)
    requires m in Minted(ops) && Count(Minted(ops), m.1) > 1
    ensures i < |ops| && Conflicts(ops, i, AbsentGuard(m.0, m.1))
  {
    MintedComesFrom(ops, m);
    i :| 0 <= i < |ops| && MintedBy(ops[i]) == [m];
    CountedIsAttached(ops, m.1);
    var a, b :| 0 <= a < b < |ops| && AttachedId(ops[a]) == Some(m.1) == AttachedId(ops[b]);
    assert AttachedId(ops[if a == i then b else a]) == AttachedId(ops[i]);
  }

  /** A plan that mints a record twice is reported with exactly the guards of the attaches that
      do. */
  lemma ConflictNamesAttaches(cfg: Config, g: GraphState, plan: Plan, comp: bool, p: Precondition)
    requires Reports(cfg, g, plan, comp, ERROR) && MintsTwice(plan.operations)
    ensures p in Attempt(cfg, g, plan, comp).1.value.failedPreconditions <==>
            exists i :: 0 <= i < |plan.operations| && Conflicts(plan.operations, i, p)
  {
    var ops := plan.operations;
    OutcomeIff(cfg, g, plan, comp);
    ConflictIff(ops);
    FailedIsConflicts(cfg, g, plan, comp);
    RepeatedHas(Minted(ops), Minted(ops), p);
    if i :| 0 <= i < |ops| && Conflicts(ops, i, p) { ConflictCounted(ops, i, p); }
    if p in SelfConflicts(ops) {
      var m :| m in Minted(ops) && Count(Minted(ops), m.1) > 1 && p == AbsentGuard(m.0, m.1);
      var i := CountedConflicts(ops, m);
    }
  }

  lemma FailedIsConflicts(cfg: Config, g: GraphState, plan: Plan, comp: bool)
    requires Reports(cfg, g, plan, comp, ERROR) && SelfConflicts(plan.operations) != []
    ensures Attempt(cfg, g, plan, comp).1.value.failedPreconditions == SelfConflicts(plan.operations)
  {
  }

  /** Only a stale plan and one that conflicts with itself are reported with guards. */
  lemma OtherwiseNoGuards(cfg: Config, g: GraphState, plan: Plan, comp: bool)
    requires var record := Attempt(cfg, g, plan, comp).1; record.Some? && record.value.outcome != STALE
    ensures Attempt(cfg, g, plan, comp).1.value.failedPreconditions == [] <==>
            !(Reports(cfg, g, plan, comp, ERROR) && MintsTwice(plan.operations))
  {
    ConflictIff(plan.operations);
    OutcomeIff(cfg, g, plan, comp);
  }
}
