/** The plan executor (src/kgcs/executor/executor.py): the one place a plan is applied. */
module Execution {
  import opened Wrappers
  import opened Contracts
  import opened GraphStore
  import opened Numerals
  import opened Sequences

  datatype Outcome = COMMITTED | STALE | UNSUPPORTED_OPERATION | EMPTY | ERROR

  datatype ExecutionRecord = ExecutionRecord(
    planId: Id,
    outcome: Outcome,
    newEpoch: Option<nat>,
    operationIds: seq<Id>,
    failedPreconditions: seq<Precondition>,
    unsupportedTypes: set<OpType>,
    isCompensation: bool)

  /** The adapter, the operation types the executor admits, and whether it can read the graph. */
  datatype Config = Config(adapter: Adapter, supported: set<OpType>, hasReader: bool)

  const DEFAULT_SUPPORTED: set<OpType> :=
    {CREATE_IDENTITY, ATTACH_ASSERTION, REVOKE_IDENTITY, RESTORE_IDENTITY}

  /** The executor lets the type through and the adapter applies it. */
  predicate Admits(cfg: Config, t: OpType) { t in cfg.supported && t in cfg.adapter.implemented }

  /* ---------- checks before the store ---------- */

  function UnsupportedTypes(supported: set<OpType>, ops: seq<Operation>): set<OpType> {
    set op <- ops | op.opType !in supported :: op.opType
  }

  function MintedBy(op: Operation): seq<(Id, Id)> {
    if op.opType == ATTACH_ASSERTION && op.payload.AssertionDump?
    then [(op.payload.assertion.subject, op.payload.assertion.assertionId)]
    else []
  }

  /** The attaches whose payload names a record, as (subject, record id) in plan order. */
  function Minted(ops: seq<Operation>): seq<(Id, Id)> {
    if ops == [] then [] else MintedBy(ops[0]) + Minted(ops[1..])
  }

  function Count(minted: seq<(Id, Id)>, id: Id): nat {
    if minted == [] then 0 else (if minted[0].1 == id then 1 else 0) + Count(minted[1..], id)
  }

  function AbsentGuard(subject: Id, id: Id): Precondition {
    Precondition(AssertionAbsent, subject, id)
  }

  function RepeatedOf(m: (Id, Id), all: seq<(Id, Id)>): seq<Precondition> {
    if Count(all, m.1) > 1 then [AbsentGuard(m.0, m.1)] else []
  }

  function Repeated(minted: seq<(Id, Id)>, all: seq<(Id, Id)>): seq<Precondition> {
    if minted == [] then [] else RepeatedOf(minted[0], all) + Repeated(minted[1..], all)
  }

  /** The guards a plan cannot meet against itself: one for each attach that mints a record
      id the plan mints more than once. */
  function SelfConflicts(ops: seq<Operation>): seq<Precondition> {
    Repeated(Minted(ops), Minted(ops))
  }

  /** The reader that is asked for superseded records too still hides revoked ones. */
  predicate Present(rows: seq<Assertion>, subject: Id, id: Id) {
    exists a <- rows :: a.subject == subject && a.assertionId == id && a.status != REVOKED
  }

  /** A snapshot guard compares texts with the current epoch; an absence guard looks for a
      live or superseded row. */
  predicate Met(g: GraphState, p: Precondition) {
    match p.kind
    case SnapshotVersion => p.expected == Decimal(g.epoch)
    case AssertionAbsent => !Present(g.tables.rows, p.subject, p.expected)
    case _ => true
  }

  function UnmetOf(g: GraphState, p: Precondition): seq<Precondition> {
    if Met(g, p) then [] else [p]
  }

  function Unmet(g: GraphState, ps: seq<Precondition>): seq<Precondition> {
    if ps == [] then [] else UnmetOf(g, ps[0]) + Unmet(g, ps[1..])
  }

  /* ---------- one attempt ---------- */

  function OperationIds(ops: seq<Operation>): seq<Id> {
    seq(|ops|, i requires 0 <= i < |ops| => ops[i].operationId)
  }

  /** The checks in order; None when all of them let the plan through to the store. */
  function Refusal(cfg: Config, g: GraphState, plan: Plan, comp: bool): Option<ExecutionRecord> {
    var ids := OperationIds(plan.operations);
    if plan.operations == [] then
      Some(ExecutionRecord(plan.planId, EMPTY, None, [], [], {}, comp))
    else if UnsupportedTypes(cfg.supported, plan.operations) != {} then
      Some(ExecutionRecord(plan.planId, UNSUPPORTED_OPERATION, None, ids, [],
                           UnsupportedTypes(cfg.supported, plan.operations), comp))
    else if SelfConflicts(plan.operations) != [] then
      Some(ExecutionRecord(plan.planId, ERROR, None, ids, SelfConflicts(plan.operations), {}, comp))
    else if cfg.hasReader && Unmet(g, plan.preconditions) != [] then
      Some(ExecutionRecord(plan.planId, STALE, None, ids, Unmet(g, plan.preconditions), {}, comp))
    else None
  }

  /** The record of a commit result; an exception other than "not implemented" escapes. */
  function Classified(plan: Plan, result: CommitResult, comp: bool): Option<ExecutionRecord> {
    var ids := OperationIds(plan.operations);
    match result
    case Committed(epoch) => Some(ExecutionRecord(plan.planId, COMMITTED, Some(epoch), ids, [], {}, comp))
    case Failed(ps) => Some(ExecutionRecord(plan.planId, STALE, None, ids, ps, {}, comp))
    case Refused => Some(ExecutionRecord(plan.planId, ERROR, None, ids, [], {}, comp))
    case NotImplementedRaised =>
      Some(ExecutionRecord(plan.planId, UNSUPPORTED_OPERATION, None, ids, [],
                           UnsupportedTypes(DEFAULT_SUPPORTED, plan.operations), comp))
    case ErrorRaised => None
  }

  /** The next graph and the attempt's record, if it returns one. */
  function Attempt(cfg: Config, g: GraphState, plan: Plan, comp: bool): (GraphState, Option<ExecutionRecord>) {
    var refusal := Refusal(cfg, g, plan, comp);
    if refusal.Some? then (g, refusal)
    else
      var applied := Apply(cfg.adapter, g, plan.operations, plan.preconditions);
      (applied.0, Classified(plan, applied.1, comp))
  }

  /** Every check passes and the store applies the batch. */
  predicate Commits(cfg: Config, g: GraphState, plan: Plan) {
    && Refusal(cfg, g, plan, false).None?
    && Apply(cfg.adapter, g, plan.operations, plan.preconditions).1.Committed?
  }

  lemma RefusalOutcome(cfg: Config, g: GraphState, plan: Plan, comp: bool)
    ensures var r := Refusal(cfg, g, plan, comp);
            r.Some? ==> r.value.outcome != COMMITTED && r.value.newEpoch == None
    ensures Refusal(cfg, g, plan, comp).None? <==> Refusal(cfg, g, plan, false).None?
  {
  }

  lemma ApplyCases(adapter: Adapter, g: GraphState, ops: seq<Operation>, ps: seq<Precondition>)
    ensures var (next, result) := Apply(adapter, g, ops, ps);
            if result.Committed?
            then next.epoch == g.epoch + 1 && result.newEpoch == next.epoch
                 && RunOps(adapter, g.tables, ops, g.epoch + 1) == Ran(next.tables)
                 && next.versions == Bumped(g.versions, ops)
            else next == g
  {
  }

  /** A plan either commits, which advances the epoch by one, or leaves the graph alone; the
      record says which, and says the new epoch exactly for a commit. */
  lemma AttemptCases(cfg: Config, g: GraphState, plan: Plan, comp: bool)
    ensures var (next, record) := Attempt(cfg, g, plan, comp);
            if Commits(cfg, g, plan)
            then next.epoch == g.epoch + 1 && record.Some? && record.value.outcome == COMMITTED
                 && record.value.newEpoch == Some(next.epoch)
            else next == g && (record.Some? ==> record.value.outcome != COMMITTED && record.value.newEpoch == None)
  {
    RefusalOutcome(cfg, g, plan, comp);
    ApplyCases(cfg.adapter, g, plan.operations, plan.preconditions);
  }

  /** What a commit shows about the graph it was made on, and about the next one. */
  lemma CommitFacts(cfg: Config, g: GraphState, plan: Plan, comp: bool)
    requires Commits(cfg, g, plan)
    ensures SelfConflicts(plan.operations) == []
    ensures cfg.hasReader ==> Unmet(g, plan.preconditions) == []
    ensures RunOps(cfg.adapter, g.tables, plan.operations, g.epoch + 1) == Ran(Attempt(cfg, g, plan, comp).0.tables)
  {
    RefusalOutcome(cfg, g, plan, comp);
    ApplyCases(cfg.adapter, g, plan.operations, plan.preconditions);
  }

  /** An attempt never removes a row or changes what it is the record of. */
  lemma CommitKeepsRows(cfg: Config, g: GraphState, plan: Plan, comp: bool)
    ensures RowsKept(g.tables.rows, Attempt(cfg, g, plan, comp).0.tables.rows)
  {
    AttemptCases(cfg, g, plan, comp);
    if Commits(cfg, g, plan) {
      CommitFacts(cfg, g, plan, comp);
      RunOpsKeepsRows(cfg.adapter, g.tables, plan.operations, g.epoch + 1);
    }
  }

  /* ---------- the watermark ---------- */

  function Advanced(published: Option<nat>, epoch: nat): Option<nat> {
    if published.None? || epoch > published.value then Some(epoch) else published
  }

  class EpochPublisher {
    var published: Option<nat>

    constructor ()
      ensures published == None
    {
      published := None;
    }

    method Publish(epoch: nat)
      modifies this
      ensures published == Advanced(old(published), epoch)
    {
      if published.None? || epoch > published.value {
        published := Some(epoch);
      }
    }
  }

  class AuditSink {
    var records: seq<ExecutionRecord>

    constructor ()
      ensures records == []
    {
      records := [];
    }

    method Record(record: ExecutionRecord)
      modifies this
      ensures records == old(records) + [record]
    {
      records := records + [record];
    }
  }

  /** The graph, the published watermark and the audit stream, as one attempt changes them. */
  datatype World = World(graph: GraphState, published: Option<nat>, audit: seq<ExecutionRecord>)

  function Execute(cfg: Config, w: World, plan: Plan, comp: bool): World {
    var (g, record) := Attempt(cfg, w.graph, plan, comp);
    match record
    case None => w.(graph := g)
    case Some(r) =>
      World(g, if r.newEpoch.Some? then Advanced(w.published, r.newEpoch.value) else w.published, w.audit + [r])
  }

  /* ---------- the executor object ---------- */

  class PlanExecutor {
    const store: Store
    const publisher: EpochPublisher
    const sink: AuditSink
    const supported: set<OpType>
    const hasReader: bool

    constructor (store: Store, publisher: EpochPublisher, sink: AuditSink, supported: set<OpType>, hasReader: bool)
      ensures this.store == store && this.publisher == publisher && this.sink == sink
      ensures this.supported == supported && this.hasReader == hasReader
    {
      this.store, this.publisher, this.sink := store, publisher, sink;
      this.supported, this.hasReader := supported, hasReader;
    }

    ghost function Cfg(): Config { Config(store.adapter, supported, hasReader) }

    ghost function Now(): World
      reads store, publisher, sink
    {
      World(store.State(), publisher.published, sink.records)
    }

    method UnmetPreconditions(plan: Plan) returns (unmet: seq<Precondition>)
      ensures unmet == if hasReader then Unmet(store.State(), plan.preconditions) else []
    {
      if !hasReader {
        return [];
      }
      var epoch := Decimal(store.epoch);
      unmet := [];
      for i := 0 to |plan.preconditions|
        invariant Unmet(store.State(), plan.preconditions) == unmet + Unmet(store.State(), plan.preconditions[i..])
      {
        var p := plan.preconditions[i];
        NextSuffix(plan.preconditions, i);
        Regrouped(unmet, UnmetOf(store.State(), p), Unmet(store.State(), plan.preconditions[i + 1..]));
        var refused := match p.kind
          case SnapshotVersion => p.expected != epoch
          case AssertionAbsent => Present(store.rows, p.subject, p.expected)
          case _ => false;
        unmet := unmet + if refused then [p] else [];
      }
    }

    static method MintedIn(ops: seq<Operation>) returns (minted: seq<(Id, Id)>)
      ensures minted == Minted(ops)
    {
      minted := [];
      for i := 0 to |ops|
        invariant Minted(ops) == minted + Minted(ops[i..])
      {
        NextSuffix(ops, i);
        Regrouped(minted, MintedBy(ops[i]), Minted(ops[i + 1..]));
        minted := minted + MintedBy(ops[i]);
      }
    }

    static method CountIds(minted: seq<(Id, Id)>) returns (counts: map<Id, nat>)
      ensures forall k :: 0 <= k < |minted| ==>
                minted[k].1 in counts && counts[minted[k].1] == Count(minted, minted[k].1)
    {
      counts := map[];
      for i := 0 to |minted|
        invariant forall k :: 0 <= k < i ==> minted[k].1 in counts
        invariant forall id <- counts :: counts[id] + Count(minted[i..], id) == Count(minted, id)
        invariant forall id :: id !in counts ==> Count(minted[i..], id) == Count(minted, id)
      {
        var id := minted[i].1;
        NextSuffix(minted, i);
        counts := counts[id := (if id in counts then counts[id] else 0) + 1];
      }
    }

    /** Counts the record ids the plan mints, then names every attach of a repeated one. */
    static method SelfConflictingGuards(plan: Plan) returns (guards: seq<Precondition>)
      ensures guards == SelfConflicts(plan.operations)
    {
      var minted := MintedIn(plan.operations);
      var counts := CountIds(minted);
      guards := [];
      for i := 0 to |minted|
        invariant Repeated(minted, minted) == guards + Repeated(minted[i..], minted)
      {
        NextSuffix(minted, i);
        Regrouped(guards, RepeatedOf(minted[i], minted), Repeated(minted[i + 1..], minted));
        guards := guards + if counts[minted[i].1] > 1 then [AbsentGuard(minted[i].0, minted[i].1)] else [];
      }
    }

    method Finish(record: ExecutionRecord) returns (result: Option<ExecutionRecord>)
      modifies sink
      ensures sink.records == old(sink.records) + [record] && result == Some(record)
    {
      sink.Record(record);
      result := Some(record);
    }

    /** The checks that come before the store. */
    method Precheck(plan: Plan, isCompensation: bool) returns (refusal: Option<ExecutionRecord>)
      ensures refusal == Refusal(Cfg(), store.State(), plan, isCompensation)
    {
      var ids := OperationIds(plan.operations);
      if plan.operations == [] {
        return Some(ExecutionRecord(plan.planId, EMPTY, None, [], [], {}, isCompensation));
      }
      var unsupported := UnsupportedTypes(supported, plan.operations);
      if unsupported != {} {
        return Some(ExecutionRecord(plan.planId, UNSUPPORTED_OPERATION, None, ids, [], unsupported, isCompensation));
      }
      var conflicting := SelfConflictingGuards(plan);
      if conflicting != [] {
        return Some(ExecutionRecord(plan.planId, ERROR, None, ids, conflicting, {}, isCompensation));
      }
      var stale := UnmetPreconditions(plan);
      if stale != [] {
        return Some(ExecutionRecord(plan.planId, STALE, None, ids, stale, {}, isCompensation));
      }
      return None;
    }

    /** One attempt.  None stands for an exception that escapes, after the store has put its
        state back. */
    method ExecutePlan(plan: Plan, isCompensation: bool := false) returns (result: Option<ExecutionRecord>)
      modifies store, publisher, sink
      ensures Now() == Execute(Cfg(), old(Now()), plan, isCompensation)
      ensures result == Attempt(Cfg(), old(store.State()), plan, isCompensation).1
    {
      ghost var g := store.State();
      RefusalOutcome(Cfg(), g, plan, isCompensation);
      ApplyCases(store.adapter, g, plan.operations, plan.preconditions);
      var refusal := Precheck(plan, isCompensation);
      if refusal.Some? {
        result := Finish(refusal.value);
        return;
      }
      var commit := store.ApplyBatch(plan.operations, plan.preconditions);
      var classified := Classified(plan, commit, isCompensation);
      if commit.Committed? {
        publisher.Publish(commit.newEpoch);
      }
      match classified
      case None => return None;
      case Some(record) => result := Finish(record);
    }
  }
}
