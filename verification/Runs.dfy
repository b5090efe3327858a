/** Whole runs of the executor: any number of callers, any plans, in any order, one attempt
    after the other. */
module Runs {
  import opened Wrappers
  import opened Contracts
  import opened Numerals
  import opened GraphStore
  import opened Execution
  import opened Compensation
  import Rollback

  datatype Call = Call(plan: Plan, comp: bool)

  /** ws are the worlds before and after each of the calls. */
  ghost predicate IsRun(cfg: Config, ws: seq<World>, calls: seq<Call>) {
    && |ws| == |calls| + 1
    && forall i :: 0 <= i < |calls| ==> ws[i + 1] == Execute(cfg, ws[i], calls[i].plan, calls[i].comp)
  }

  /** Which of the calls commit. */
  function Committing(cfg: Config, ws: seq<World>, calls: seq<Call>): seq<bool>
    requires |ws| == |calls| + 1
  {
    seq(|calls|, i requires 0 <= i < |calls| => Commits(cfg, ws[i].graph, calls[i].plan))
  }

  /** What one call does to the world, by whether it commits. */
  predicate Moves(w: World, next: World, commits: bool) {
    if commits then
      && next.graph.epoch == w.graph.epoch + 1
      && RowsKept(w.graph.tables.rows, next.graph.tables.rows)
      && next.published == Advanced(w.published, next.graph.epoch)
      && |next.audit| == |w.audit| + 1 && w.audit == next.audit[..|w.audit|]
      && CommittedEpoch(next.audit[|w.audit|]) == [next.graph.epoch]
    else
      && next.graph == w.graph && next.published == w.published
      && (next.audit == w.audit
          || (|next.audit| == |w.audit| + 1 && w.audit == next.audit[..|w.audit|]
              && CommittedEpoch(next.audit[|w.audit|]) == []))
  }

  predicate Trace(ws: seq<World>, cs: seq<bool>) {
    |ws| == |cs| + 1 && forall i :: 0 <= i < |cs| ==> Moves(ws[i], ws[i + 1], cs[i])
  }

  /** The epoch a record of the audit stream reports as committed, if it does. */
  function CommittedEpoch(r: ExecutionRecord): seq<nat> {
    if r.outcome == COMMITTED && r.newEpoch.Some? then [r.newEpoch.value] else []
  }

  lemma ExecuteMoves(cfg: Config, w: World, plan: Plan, comp: bool)
    ensures Moves(w, Execute(cfg, w, plan, comp), Commits(cfg, w.graph, plan))
  {
    AttemptCases(cfg, w.graph, plan, comp);
    CommitKeepsRows(cfg, w.graph, plan, comp);
    var record := Attempt(cfg, w.graph, plan, comp).1;
    if record.Some? {
      var audit := w.audit + [record.value];
      assert audit[..|w.audit|] == w.audit && audit[|w.audit|] == record.value;
    }
  }

  lemma RunIsTrace(cfg: Config, ws: seq<World>, calls: seq<Call>)
    requires IsRun(cfg, ws, calls)
    ensures Trace(ws, Committing(cfg, ws, calls))
  {
    var cs := Committing(cfg, ws, calls);
    forall i | 0 <= i < |cs| ensures Moves(ws[i], ws[i + 1], cs[i]) {
      ExecuteMoves(cfg, ws[i], calls[i].plan, calls[i].comp);
    }
  }

  /** How many of the first n calls commit. */
  function CountTrue(cs: seq<bool>, n: nat): nat
    requires n <= |cs|
  {
    if n == 0 then 0 else CountTrue(cs, n - 1) + if cs[n - 1] then 1 else 0
  }

  lemma {:induction false} EpochCountsCommits(ws: seq<World>, cs: seq<bool>, i: nat, j: nat)
    requires Trace(ws, cs) && i <= j <= |cs|
    ensures ws[j].graph.epoch == ws[i].graph.epoch + CountTrue(cs, j) - CountTrue(cs, i)
    ensures CountTrue(cs, i) <= CountTrue(cs, j)
    decreases j
  {
    if i < j {
      EpochCountsCommits(ws, cs, i, j - 1);
      assert Moves(ws[j - 1], ws[j], cs[j - 1]);
    }
  }

  lemma {:induction false} GraphFixed(ws: seq<World>, cs: seq<bool>, i: nat, j: nat)
    requires Trace(ws, cs) && i <= j <= |cs| && ws[i].graph.epoch == ws[j].graph.epoch
    ensures ws[i].graph == ws[j].graph
    decreases j
  {
    if i < j {
      EpochCountsCommits(ws, cs, i, j - 1);
      assert Moves(ws[j - 1], ws[j], cs[j - 1]);
      GraphFixed(ws, cs, i, j - 1);
    }
  }

  lemma {:induction false} RowsKeptAlong(ws: seq<World>, cs: seq<bool>, i: nat, j: nat)
    requires Trace(ws, cs) && i <= j <= |cs|
    ensures RowsKept(ws[i].graph.tables.rows, ws[j].graph.tables.rows)
    decreases j
  {
    if i < j {
      RowsKeptAlong(ws, cs, i, j - 1);
      assert Moves(ws[j - 1], ws[j], cs[j - 1]);
    }
  }

  /** Between any two moments of a run: the epoch advances by exactly the number of commits;
      the graph is the same exactly when the epoch is; and no row is removed, moved or turned
      into the record of something else. */
  lemma RunAdvances(cfg: Config, ws: seq<World>, calls: seq<Call>, i: nat, j: nat)
    requires IsRun(cfg, ws, calls) && i <= j <= |calls|
    ensures var cs := Committing(cfg, ws, calls);
            ws[j].graph.epoch == ws[i].graph.epoch + CountTrue(cs, j) - CountTrue(cs, i) >= ws[i].graph.epoch
    ensures ws[i].graph == ws[j].graph <==> ws[i].graph.epoch == ws[j].graph.epoch
    ensures RowsKept(ws[i].graph.tables.rows, ws[j].graph.tables.rows)
  {
    var cs := Committing(cfg, ws, calls);
    RunIsTrace(cfg, ws, calls);
    EpochCountsCommits(ws, cs, i, j);
    if ws[i].graph.epoch == ws[j].graph.epoch { GraphFixed(ws, cs, i, j); }
    RowsKeptAlong(ws, cs, i, j);
  }

  /* ---------- snapshot guards ---------- */

  predicate GuardedAt(plan: Plan, expected: string) {
    exists p <- plan.preconditions :: p.kind == SnapshotVersion && p.expected == expected
  }

  lemma {:induction false} UnmetHas(g: GraphState, ps: seq<Precondition>, p: Precondition)
    ensures p in Unmet(g, ps) <==> p in ps && !Met(g, p)
  {
    if ps != [] { UnmetHas(g, ps[1..], p); }
  }

  lemma {:induction false} FailedNames(versions: map<Id, nat>, ps: seq<Precondition>, p: Precondition)
    ensures p in FailedOf(versions, ps) <==> p in ps && !Holds(versions, p)
  {
    if ps != [] { FailedNames(versions, ps[1..], p); }
  }

  /** The guard is false for whichever of the two checked it last. */
  predicate IsFalse(cfg: Config, g: GraphState, plan: Plan, comp: bool, p: Precondition) {
    if Refusal(cfg, g, plan, comp).Some? then !Met(g, p) else !Holds(g.versions, p)
  }

  /** A STALE record names exactly the false guards: those the executor found unmet, or, where
      it let the plan through, those the store did. */
  lemma StaleNamesFalseGuards(cfg: Config, g: GraphState, plan: Plan, comp: bool, p: Precondition)
    requires var record := Attempt(cfg, g, plan, comp).1; record.Some? && record.value.outcome == STALE
    ensures var failed := Attempt(cfg, g, plan, comp).1.value.failedPreconditions;
            && failed != []
            && (p in failed <==> (p in plan.preconditions && IsFalse(cfg, g, plan, comp, p)))
  {
    if Refusal(cfg, g, plan, comp).Some? {
      RefusedNamesUnmet(cfg, g, plan, comp, p);
    } else {
      FailedNames(g.versions, plan.preconditions, p);
    }
  }

  lemma RefusedNamesUnmet(cfg: Config, g: GraphState, plan: Plan, comp: bool, p: Precondition)
    requires var record := Refusal(cfg, g, plan, comp); record.Some? && record.value.outcome == STALE
    ensures var failed := Refusal(cfg, g, plan, comp).value.failedPreconditions;
            failed != [] && (p in failed <==> p in plan.preconditions && !Met(g, p))
  {
    UnmetHas(g, plan.preconditions, p);
  }

  lemma CommitMeetsGuards(cfg: Config, g: GraphState, plan: Plan, p: Precondition)
    requires cfg.hasReader && Commits(cfg, g, plan) && p in plan.preconditions
    ensures Met(g, p)
  {
    CommitFacts(cfg, g, plan, false);
    UnmetHas(g, plan.preconditions, p);
  }

  lemma CommitAtSnapshot(cfg: Config, g: GraphState, plan: Plan, expected: string)
    requires cfg.hasReader && Commits(cfg, g, plan) && GuardedAt(plan, expected)
    ensures Decimal(g.epoch) == expected
  {
    var p :| p in plan.preconditions && p.kind == SnapshotVersion && p.expected == expected;
    CommitMeetsGuards(cfg, g, plan, p);
  }

  /** Of all plans read at one snapshot, over the whole run, at most one commits.  In
      particular no plan with a snapshot guard commits twice. */
  lemma AtMostOneCommitPerSnapshot(cfg: Config, ws: seq<World>, calls: seq<Call>, i: nat, j: nat, expected: string)
    requires cfg.hasReader && IsRun(cfg, ws, calls) && i < j < |calls|
    requires GuardedAt(calls[i].plan, expected) && GuardedAt(calls[j].plan, expected)
    requires Committing(cfg, ws, calls)[i]
    ensures !Committing(cfg, ws, calls)[j]
  {
    var cs := Committing(cfg, ws, calls);
    if cs[j] {
      CommitAtSnapshot(cfg, ws[i].graph, calls[i].plan, expected);
      CommitAtSnapshot(cfg, ws[j].graph, calls[j].plan, expected);
      DecimalInjective(ws[i].graph.epoch, ws[j].graph.epoch);
      RunIsTrace(cfg, ws, calls);
      EpochCountsCommits(ws, cs, i, i + 1);
      EpochCountsCommits(ws, cs, i + 1, j);
      assert false;
    }
  }

  lemma Outdated(cfg: Config, g: GraphState, plan: Plan, comp: bool, p: Precondition, e: nat)
    requires cfg.hasReader && g.epoch > e
    requires p in plan.preconditions && p.kind == SnapshotVersion && p.expected == Decimal(e)
    ensures var (next, record) := Attempt(cfg, g, plan, comp);
            && next == g
            && (plan.operations != [] && UnsupportedTypes(cfg.supported, plan.operations) == {}
                && SelfConflicts(plan.operations) == []
                ==> record.Some? && record.value.outcome == STALE && p in record.value.failedPreconditions)
  {
    if p.expected == Decimal(g.epoch) { DecimalInjective(e, g.epoch); }
    UnmetHas(g, plan.preconditions, p);
  }

  /** A plan read at epoch e and overtaken by any commit is refused at every later call: the
      graph stays as it is, and where nothing else is wrong with the plan the refusal is
      STALE and names the guard. */
  lemma OvertakenStaysStale(cfg: Config, ws: seq<World>, calls: seq<Call>, i: nat, j: nat, p: Precondition, e: nat)
    requires cfg.hasReader && IsRun(cfg, ws, calls) && i <= j < |calls| && ws[i].graph.epoch > e
    requires p in calls[j].plan.preconditions && p.kind == SnapshotVersion && p.expected == Decimal(e)
    ensures var plan := calls[j].plan;
            var (next, record) := Attempt(cfg, ws[j].graph, plan, calls[j].comp);
            && next == ws[j].graph == ws[j + 1].graph
            && (plan.operations != [] && UnsupportedTypes(cfg.supported, plan.operations) == {}
                && SelfConflicts(plan.operations) == []
                ==> record.Some? && record.value.outcome == STALE && p in record.value.failedPreconditions)
  {
    RunAdvances(cfg, ws, calls, i, j);
    Outdated(cfg, ws[j].graph, calls[j].plan, calls[j].comp, p, e);
  }

  /** A compensation built at epoch e meets its guards exactly while the graph is at e. */
  lemma CompensationGuardsIff(settings: Settings, plan: Plan, e: nat, g: GraphState)
    requires plan.WellFormed()
    requires var r := CompensationOf(settings, plan, Whole(e)); r.Ok? && r.value.plan.Some?
    ensures Unmet(g, CompensationOf(settings, plan, Whole(e)).value.plan.value.preconditions) == [] <==> g.epoch == e
  {
    GuardsExpectEpoch(settings, plan, Whole(e));
    var ps := CompensationOf(settings, plan, Whole(e)).value.plan.value.preconditions;
    UnmetHas(g, ps, ps[0]);
    if g.epoch == e {
      Rollback.AllMet(g, ps);
    } else if Decimal(g.epoch) == Decimal(e) {
      DecimalInjective(g.epoch, e);
    }
  }

  /* ---------- the watermark and the audit stream ---------- */

  lemma {:induction false} Watermark(ws: seq<World>, cs: seq<bool>, i: nat)
    requires Trace(ws, cs) && i <= |cs|
    requires ws[0].published.None? || ws[0].published.value <= ws[0].graph.epoch
    ensures ws[i].published == if CountTrue(cs, i) == 0 then ws[0].published else Some(ws[i].graph.epoch)
  {
    if i > 0 {
      Watermark(ws, cs, i - 1);
      EpochCountsCommits(ws, cs, 0, i - 1);
      assert Moves(ws[i - 1], ws[i], cs[i - 1]);
    }
  }

  lemma {:induction false} WatermarkMoves(ws: seq<World>, cs: seq<bool>, i: nat, j: nat)
    requires Trace(ws, cs) && i <= j <= |cs| && ws[i].published.Some?
    ensures ws[j].published.Some? && ws[i].published.value <= ws[j].published.value
    decreases j
  {
    if i < j {
      WatermarkMoves(ws, cs, i, j - 1);
      assert Moves(ws[j - 1], ws[j], cs[j - 1]);
    }
  }

  /** The watermark is the epoch of the last commit, or what it was if there was none. */
  lemma WatermarkIsLastCommit(cfg: Config, ws: seq<World>, calls: seq<Call>, i: nat)
    requires IsRun(cfg, ws, calls) && i <= |calls|
    requires ws[0].published.None? || ws[0].published.value <= ws[0].graph.epoch
    ensures ws[i].published ==
            if CountTrue(Committing(cfg, ws, calls), i) == 0 then ws[0].published else Some(ws[i].graph.epoch)
  {
    RunIsTrace(cfg, ws, calls);
    Watermark(ws, Committing(cfg, ws, calls), i);
  }

  /** The watermark never moves back, whatever it stood at. */
  lemma WatermarkNeverRegresses(cfg: Config, ws: seq<World>, calls: seq<Call>, i: nat, j: nat)
    requires IsRun(cfg, ws, calls) && i <= j <= |calls| && ws[i].published.Some?
    ensures ws[j].published.Some? && ws[i].published.value <= ws[j].published.value
  {
    RunIsTrace(cfg, ws, calls);
    WatermarkMoves(ws, Committing(cfg, ws, calls), i, j);
  }

  /** The epochs the audit stream reports as committed. */
  function CommittedEpochs(audit: seq<ExecutionRecord>): seq<nat> {
    if audit == [] then [] else CommittedEpochs(audit[..|audit| - 1]) + CommittedEpoch(audit[|audit| - 1])
  }

  /** The numbers after `first`, `count` of them. */
  function Following(first: nat, count: nat): seq<nat> {
    if count == 0 then [] else Following(first, count - 1) + [first + count]
  }

  lemma AuditStep(w: World, next: World, commits: bool)
    requires Moves(w, next, commits)
    ensures CommittedEpochs(next.audit) == CommittedEpochs(w.audit) + if commits then [next.graph.epoch] else []
  {
    var n := |w.audit|;
    if next.audit != w.audit {
      assert next.audit[..n] == w.audit;
      assert CommittedEpochs(next.audit) == CommittedEpochs(next.audit[..n]) + CommittedEpoch(next.audit[n]);
    }
  }

  /** Epochs that advance by one with each commit, and lists that grow by that epoch. */
  predicate Numbered(epochs: seq<nat>, lists: seq<seq<nat>>, cs: seq<bool>) {
    && |epochs| == |lists| == |cs| + 1
    && forall i :: 0 <= i < |cs| ==>
         if cs[i] then epochs[i + 1] == epochs[i] + 1 && lists[i + 1] == lists[i] + [epochs[i + 1]]
         else epochs[i + 1] == epochs[i] && lists[i + 1] == lists[i]
  }

  lemma {:induction false} NumberedFollows(epochs: seq<nat>, lists: seq<seq<nat>>, cs: seq<bool>, i: nat)
    requires Numbered(epochs, lists, cs) && i <= |cs| && lists[0] == []
    ensures epochs[i] == epochs[0] + CountTrue(cs, i) && lists[i] == Following(epochs[0], CountTrue(cs, i))
  {
    if i > 0 {
      NumberedFollows(epochs, lists, cs, i - 1);
      assert cs[i - 1] || !cs[i - 1];
    }
  }

  lemma AuditFollows(ws: seq<World>, cs: seq<bool>, i: nat)
    requires Trace(ws, cs) && i <= |cs| && ws[0].audit == []
    ensures CommittedEpochs(ws[i].audit) == Following(ws[0].graph.epoch, CountTrue(cs, i))
  {
    var epochs := seq(|ws|, k requires 0 <= k < |ws| => ws[k].graph.epoch);
    var lists := seq(|ws|, k requires 0 <= k < |ws| => CommittedEpochs(ws[k].audit));
    forall k | 0 <= k < |cs| ensures
      if cs[k] then epochs[k + 1] == epochs[k] + 1 && lists[k + 1] == lists[k] + [epochs[k + 1]]
      else epochs[k + 1] == epochs[k] && lists[k + 1] == lists[k]
    {
      AuditStep(ws[k], ws[k + 1], cs[k]);
    }
    NumberedFollows(epochs, lists, cs, i);
  }

  /** The audit stream reports every commit once, in order: its epochs are the numbers from
      the first one on, without gap or repeat. */
  lemma AuditReportsEveryCommit(cfg: Config, ws: seq<World>, calls: seq<Call>, i: nat)
    requires IsRun(cfg, ws, calls) && i <= |calls| && ws[0].audit == []
    ensures CommittedEpochs(ws[i].audit) == Following(ws[0].graph.epoch, CountTrue(Committing(cfg, ws, calls), i))
  {
    RunIsTrace(cfg, ws, calls);
    AuditFollows(ws, Committing(cfg, ws, calls), i);
  }

  /* ---------- one row per record ---------- */

  /** At most one row for each record of a subject. */
  predicate NoDuplicates(rows: seq<Assertion>) {
    forall i, j :: 0 <= i < j < |rows| ==>
      rows[i].subject != rows[j].subject || rows[i].assertionId != rows[j].assertionId
  }

  predicate GuardsAttaches(plan: Plan) {
    forall m <- Minted(plan.operations) :: AbsentGuard(m.0, m.1) in plan.preconditions
  }

  /** No record id is minted twice. */
  predicate MintsOnce(minted: seq<(Id, Id)>) {
    forall i, j :: 0 <= i < j < |minted| ==> minted[i].1 != minted[j].1
  }

  lemma HeadIsDistinct(first: seq<(Id, Id)>, rest: seq<(Id, Id)>, m: (Id, Id))
    requires MintsOnce(first + rest) && first != [] && m in rest
    ensures first[0].1 != m.1
  {
    var all := first + rest;
    var k :| 0 <= k < |rest| && rest[k] == m;
    assert all[0] == first[0] && all[|first| + k] == m;
  }

  lemma MintsOnceSuffix(first: seq<(Id, Id)>, rest: seq<(Id, Id)>)
    requires MintsOnce(first + rest)
    ensures MintsOnce(rest)
  {
    var all := first + rest;
    forall i, j | 0 <= i < j < |rest| ensures rest[i].1 != rest[j].1 {
      assert all[|first| + i] == rest[i] && all[|first| + j] == rest[j];
    }
  }

  /** The table has a row for the record, whatever its status. */
  predicate Recorded(rows: seq<Assertion>, subject: Id, id: Id) {
    exists a <- rows :: a.subject == subject && a.assertionId == id
  }

  /** The table has a revoked row for the record, which the absence guard does not see. */
  predicate Hidden(rows: seq<Assertion>, subject: Id, id: Id) {
    exists a <- rows :: a.subject == subject && a.assertionId == id && a.status == REVOKED
  }

  /** The operations mint a record that has a revoked row. */
  predicate MintsHidden(rows: seq<Assertion>, ops: seq<Operation>) {
    exists m <- Minted(ops) :: Hidden(rows, m.0, m.1)
  }

  /** The operations mint a record that the table holds. */
  predicate MintsRecorded(rows: seq<Assertion>, ops: seq<Operation>) {
    exists m <- Minted(ops) :: Recorded(rows, m.0, m.1)
  }

  lemma RecordedIff(rows: seq<Assertion>, subject: Id, id: Id)
    ensures Recorded(rows, subject, id) <==> Present(rows, subject, id) || Hidden(rows, subject, id)
  {
  }

  /** Nothing the operations mint is in the table, and they mint no id twice. */
  predicate Fresh(rows: seq<Assertion>, ops: seq<Operation>) {
    && (forall m <- Minted(ops) :: !Recorded(rows, m.0, m.1))
    && MintsOnce(Minted(ops))
  }

  lemma AttachKeepsNoDuplicates(upserts: bool, rows: seq<Assertion>, a: Assertion)
    requires NoDuplicates(rows) && (upserts || !Recorded(rows, a.subject, a.assertionId))
    ensures NoDuplicates(Attach(upserts, rows, a))
  {
    var i := RowOf(rows, a.subject, a.assertionId);
    assert i < |rows| ==> rows[i] in rows;
  }

  lemma StepKeepsNoDuplicates(adapter: Adapter, t: Tables, op: Operation, newEpoch: nat)
    requires NoDuplicates(t.rows) && ApplyOp(adapter, t, op, newEpoch).Ran?
    requires adapter.upserts || forall m <- MintedBy(op) :: !Recorded(t.rows, m.0, m.1)
    ensures NoDuplicates(ApplyOp(adapter, t, op, newEpoch).tables.rows)
  {
    if op.opType == ATTACH_ASSERTION {
      assert adapter.upserts || MintedBy(op)[0] in MintedBy(op);
      AttachKeepsNoDuplicates(adapter.upserts, t.rows, op.payload.assertion.(epoch := newEpoch));
    }
  }

  lemma StepRecorded(adapter: Adapter, t: Tables, op: Operation, newEpoch: nat, subject: Id, id: Id)
    requires ApplyOp(adapter, t, op, newEpoch).Ran?
    requires Recorded(ApplyOp(adapter, t, op, newEpoch).tables.rows, subject, id)
    ensures Recorded(t.rows, subject, id) || MintedBy(op) == [(subject, id)]
  {
    var after := ApplyOp(adapter, t, op, newEpoch).tables.rows;
    var a :| a in after && a.subject == subject && a.assertionId == id;
    var i :| 0 <= i < |after| && after[i] == a;
    if i < |t.rows| { assert t.rows[i] in t.rows; }
  }

  lemma StaysFresh(adapter: Adapter, t: Tables, ops: seq<Operation>, newEpoch: nat)
    requires ops != [] && Fresh(t.rows, ops) && ApplyOp(adapter, t, ops[0], newEpoch).Ran?
    ensures Fresh(ApplyOp(adapter, t, ops[0], newEpoch).tables.rows, ops[1..])
  {
    var first, later := MintedBy(ops[0]), Minted(ops[1..]);
    var minted, next := Minted(ops), ApplyOp(adapter, t, ops[0], newEpoch).tables;
    assert minted == first + later;
    forall k | 0 <= k < |later| ensures !Recorded(next.rows, later[k].0, later[k].1) {
      assert minted[|first| + k] == later[k] && later[k] in minted;
      assert first != [] ==> minted[0].1 != minted[|first| + k].1;
      if Recorded(next.rows, later[k].0, later[k].1) {
        StepRecorded(adapter, t, ops[0], newEpoch, later[k].0, later[k].1);
      }
    }
    MintsOnceSuffix(first, later);
  }

  lemma {:induction false} FreshRunKeepsNoDuplicates(adapter: Adapter, t: Tables, ops: seq<Operation>, newEpoch: nat)
    requires NoDuplicates(t.rows) && RunOps(adapter, t, ops, newEpoch).Ran?
    requires adapter.upserts || Fresh(t.rows, ops)
    ensures NoDuplicates(RunOps(adapter, t, ops, newEpoch).tables.rows)
    decreases ops
  {
    if ops != [] {
      var next := ApplyOp(adapter, t, ops[0], newEpoch).tables;
      assert !adapter.upserts ==> forall m <- MintedBy(ops[0]) :: m in Minted(ops);
      StepKeepsNoDuplicates(adapter, t, ops[0], newEpoch);
      if !adapter.upserts { StaysFresh(adapter, t, ops, newEpoch); }
      FreshRunKeepsNoDuplicates(adapter, next, ops[1..], newEpoch);
    }
  }

  lemma {:induction false} RepeatedNames(minted: seq<(Id, Id)>, all: seq<(Id, Id)>, m: (Id, Id))
    requires m in minted && Count(all, m.1) > 1
    ensures Repeated(minted, all) != []
  {
    if m != minted[0] { RepeatedNames(minted[1..], all, m); }
  }

  lemma {:induction false} CountsTwice(minted: seq<(Id, Id)>, i: nat, j: nat)
    requires i < j < |minted| && minted[i].1 == minted[j].1
    ensures Count(minted, minted[i].1) > 1
  {
    if i > 0 {
      CountsTwice(minted[1..], i - 1, j - 1);
    } else {
      CountsOnce(minted[1..], j - 1);
    }
  }

  lemma {:induction false} CountsOnce(minted: seq<(Id, Id)>, j: nat)
    requires j < |minted|
    ensures Count(minted, minted[j].1) > 0
  {
    if j > 0 { CountsOnce(minted[1..], j - 1); }
  }

  lemma {:induction false} CountedOnce(minted: seq<(Id, Id)>, id: Id)
    requires MintsOnce(minted)
    ensures Count(minted, id) <= 1
    ensures (forall m <- minted :: m.1 != id) ==> Count(minted, id) == 0
  {
    if minted != [] {
      forall i, j | 0 <= i < j < |minted| - 1 ensures minted[1..][i].1 != minted[1..][j].1 {
        assert minted[i + 1].1 != minted[j + 1].1;
      }
      CountedOnce(minted[1..], id);
      forall m <- minted[1..] ensures m.1 != minted[0].1 {
        var k :| 0 <= k < |minted| - 1 && minted[1..][k] == m;
        assert minted[0].1 != minted[k + 1].1;
      }
      assert minted[0] in minted;
    }
  }

  /** A plan conflicts with itself exactly when two of its attaches mint one record id, under
      whatever subjects. */
  lemma SelfConflictIff(ops: seq<Operation>)
    ensures SelfConflicts(ops) == [] <==> MintsOnce(Minted(ops))
  {
    var minted := Minted(ops);
    if MintsOnce(minted) {
      forall m <- minted ensures Count(minted, m.1) <= 1 { CountedOnce(minted, m.1); }
      Rollback.NothingRepeated(minted, minted);
    } else {
      var i, j :| 0 <= i < j < |minted| && minted[i].1 == minted[j].1;
      CountsTwice(minted, i, j);
      RepeatedNames(minted, minted, minted[i]);
    }
  }

  lemma {:induction false} MintedComesFrom(ops: seq<Operation>, m: (Id, Id))
    requires m in Minted(ops)
    ensures exists k :: 0 <= k < |ops| && MintedBy(ops[k]) == [m]
  {
    if MintedBy(ops[0]) != [m] {
      MintedComesFrom(ops[1..], m);
      var k :| 0 <= k < |ops| - 1 && MintedBy(ops[1..][k]) == [m];
      assert MintedBy(ops[k + 1]) == [m];
    }
  }

  lemma {:induction false} MintIsThere(ops: seq<Operation>, j: nat)
    requires j < |ops| && MintedBy(ops[j]) != []
    ensures MintedBy(ops[j])[0] in Minted(ops)
  {
    if j > 0 { MintIsThere(ops[1..], j - 1); }
  }

  lemma {:induction false} DistinctMints(ops: seq<Operation>, i: nat, j: nat)
    requires i < j < |ops| && MintsOnce(Minted(ops))
    requires MintedBy(ops[i]) != [] && MintedBy(ops[j]) != []
    ensures MintedBy(ops[i])[0].1 != MintedBy(ops[j])[0].1
    decreases ops
  {
    if i > 0 {
      MintsOnceSuffix(MintedBy(ops[0]), Minted(ops[1..]));
      DistinctMints(ops[1..], i - 1, j - 1);
    } else {
      MintIsThere(ops[1..], j - 1);
      HeadIsDistinct(MintedBy(ops[0]), Minted(ops[1..]), MintedBy(ops[j])[0]);
    }
  }

  /** What a commit of a plan that guards its attaches shows: it mints no id twice, and nothing
      the graph holds in a row the guards see. */
  lemma GuardedCommit(cfg: Config, g: GraphState, plan: Plan)
    requires cfg.hasReader && Commits(cfg, g, plan) && GuardsAttaches(plan)
    ensures MintsOnce(Minted(plan.operations))
    ensures forall m <- Minted(plan.operations) :: !Present(g.tables.rows, m.0, m.1)
  {
    CommitFacts(cfg, g, plan, false);
    SelfConflictIff(plan.operations);
    forall m <- Minted(plan.operations) ensures !Present(g.tables.rows, m.0, m.1) {
      CommitMeetsGuards(cfg, g, plan, AbsentGuard(m.0, m.1));
    }
  }

  /** Such a commit is fresh exactly when it mints no record that has a revoked row. */
  lemma GuardedCommitIsFreshIff(cfg: Config, g: GraphState, plan: Plan)
    requires cfg.hasReader && Commits(cfg, g, plan) && GuardsAttaches(plan)
    ensures Fresh(g.tables.rows, plan.operations) <==> !MintsHidden(g.tables.rows, plan.operations)
  {
    GuardedCommit(cfg, g, plan);
    forall m <- Minted(plan.operations) ensures Recorded(g.tables.rows, m.0, m.1) <==> Hidden(g.tables.rows, m.0, m.1) {
      RecordedIff(g.tables.rows, m.0, m.1);
    }
  }

  /** A store that appends puts a row behind all others for everything minted. */
  lemma {:induction false} MintedIsAppended(adapter: Adapter, t: Tables, ops: seq<Operation>, newEpoch: nat,
                                            m: (Id, Id))
    requires !adapter.upserts && m in Minted(ops) && RunOps(adapter, t, ops, newEpoch).Ran?
    ensures var after := RunOps(adapter, t, ops, newEpoch).tables.rows;
            exists i :: |t.rows| <= i < |after| && after[i].subject == m.0 && after[i].assertionId == m.1
    decreases ops
  {
    var next, after := ApplyOp(adapter, t, ops[0], newEpoch).tables, RunOps(adapter, t, ops, newEpoch).tables.rows;
    RunOpsKeepsRows(adapter, next, ops[1..], newEpoch);
    if m in Minted(ops[1..]) {
      MintedIsAppended(adapter, next, ops[1..], newEpoch, m);
      var i :| |next.rows| <= i < |after| && after[i].subject == m.0 && after[i].assertionId == m.1;
      assert |t.rows| <= i;
    } else {
      assert m in MintedBy(ops[0]);
      var k := |t.rows|;
      assert next.rows[k] == ops[0].payload.assertion.(epoch := newEpoch);
      assert after[k].subject == m.0 && after[k].assertionId == m.1;
    }
  }

  lemma RecordedComesTwice(adapter: Adapter, t: Tables, ops: seq<Operation>, newEpoch: nat)
    requires !adapter.upserts && MintsRecorded(t.rows, ops) && RunOps(adapter, t, ops, newEpoch).Ran?
    ensures !NoDuplicates(RunOps(adapter, t, ops, newEpoch).tables.rows)
  {
    var after := RunOps(adapter, t, ops, newEpoch).tables.rows;
    var m :| m in Minted(ops) && Recorded(t.rows, m.0, m.1);
    var a :| a in t.rows && a.subject == m.0 && a.assertionId == m.1;
    var k :| 0 <= k < |t.rows| && t.rows[k] == a;
    RunOpsKeepsRows(adapter, t, ops, newEpoch);
    MintedIsAppended(adapter, t, ops, newEpoch, m);
    var i :| |t.rows| <= i < |after| && after[i].subject == m.0 && after[i].assertionId == m.1;
    assert after[k].subject == after[i].subject && after[k].assertionId == after[i].assertionId;
  }

  /** On a store that appends, the commit of any plan, guarded or not, gives a record a second
      row exactly when it mints one that the graph holds. */
  lemma CommitDuplicatesIff(cfg: Config, g: GraphState, plan: Plan, comp: bool)
    requires !cfg.adapter.upserts && Commits(cfg, g, plan) && NoDuplicates(g.tables.rows)
    ensures NoDuplicates(Attempt(cfg, g, plan, comp).0.tables.rows) <==> !MintsRecorded(g.tables.rows, plan.operations)
  {
    CommitFacts(cfg, g, plan, comp);
    SelfConflictIff(plan.operations);
    if MintsRecorded(g.tables.rows, plan.operations) {
      RecordedComesTwice(cfg.adapter, g.tables, plan.operations, g.epoch + 1);
    } else {
      FreshRunKeepsNoDuplicates(cfg.adapter, g.tables, plan.operations, g.epoch + 1);
    }
  }

  /** Where the plan guards its attaches, the executor's check leaves only the revoked ones. */
  lemma GuardedMintsIff(cfg: Config, g: GraphState, plan: Plan)
    requires cfg.hasReader && Commits(cfg, g, plan) && GuardsAttaches(plan)
    ensures MintsRecorded(g.tables.rows, plan.operations) <==> MintsHidden(g.tables.rows, plan.operations)
  {
    GuardedCommitIsFreshIff(cfg, g, plan);
    GuardedCommit(cfg, g, plan);
  }

  lemma UpsertKeepsNoDuplicates(cfg: Config, g: GraphState, plan: Plan, comp: bool)
    requires cfg.adapter.upserts && NoDuplicates(g.tables.rows)
    ensures NoDuplicates(Attempt(cfg, g, plan, comp).0.tables.rows)
  {
    AttemptCases(cfg, g, plan, comp);
    if Commits(cfg, g, plan) {
      CommitFacts(cfg, g, plan, comp);
      FreshRunKeepsNoDuplicates(cfg.adapter, g.tables, plan.operations, g.epoch + 1);
    }
  }

  ghost predicate StayUnique(ws: seq<World>) {
    forall i :: 0 <= i < |ws| - 1 && NoDuplicates(ws[i].graph.tables.rows) ==> NoDuplicates(ws[i + 1].graph.tables.rows)
  }

  lemma {:induction false} UniqueThroughout(ws: seq<World>, i: nat)
    requires StayUnique(ws) && i < |ws| && NoDuplicates(ws[0].graph.tables.rows)
    ensures NoDuplicates(ws[i].graph.tables.rows)
  {
    if i > 0 { UniqueThroughout(ws, i - 1); }
  }

  lemma ExecuteGraph(cfg: Config, w: World, plan: Plan, comp: bool)
    ensures Execute(cfg, w, plan, comp).graph == Attempt(cfg, w.graph, plan, comp).0
  {
  }

  /** A store that attaches by id never gives a record a second row, whatever the plans. */
  lemma UpsertNeverDuplicates(cfg: Config, ws: seq<World>, calls: seq<Call>, i: nat)
    requires cfg.adapter.upserts && IsRun(cfg, ws, calls) && i <= |calls| && NoDuplicates(ws[0].graph.tables.rows)
    ensures NoDuplicates(ws[i].graph.tables.rows)
  {
    forall k | 0 <= k < |calls| && NoDuplicates(ws[k].graph.tables.rows)
      ensures NoDuplicates(ws[k + 1].graph.tables.rows)
    {
      ExecuteGraph(cfg, ws[k], calls[k].plan, calls[k].comp);
      UpsertKeepsNoDuplicates(cfg, ws[k].graph, calls[k].plan, calls[k].comp);
    }
    UniqueThroughout(ws, i);
  }

  /** The call commits and mints a record that the graph holds then. */
  predicate CommitsOverRecorded(cfg: Config, w: World, call: Call) {
    Commits(cfg, w.graph, call.plan) && MintsRecorded(w.graph.tables.rows, call.plan.operations)
  }

  /** The call commits and mints a record that has a revoked row then. */
  predicate CommitsOverHidden(cfg: Config, w: World, call: Call) {
    Commits(cfg, w.graph, call.plan) && MintsHidden(w.graph.tables.rows, call.plan.operations)
  }

  lemma CallDuplicatesIff(cfg: Config, w: World, call: Call)
    requires !cfg.adapter.upserts && NoDuplicates(w.graph.tables.rows)
    ensures NoDuplicates(Execute(cfg, w, call.plan, call.comp).graph.tables.rows) <==>
            !CommitsOverRecorded(cfg, w, call)
  {
    ExecuteGraph(cfg, w, call.plan, call.comp);
    AttemptCases(cfg, w.graph, call.plan, call.comp);
    if Commits(cfg, w.graph, call.plan) { CommitDuplicatesIff(cfg, w.graph, call.plan, call.comp); }
  }

  lemma DuplicatesStay(rows: seq<Assertion>, later: seq<Assertion>)
    requires RowsKept(rows, later) && !NoDuplicates(rows)
    ensures !NoDuplicates(later)
  {
    var i, j :| 0 <= i < j < |rows| && rows[i].subject == rows[j].subject && rows[i].assertionId == rows[j].assertionId;
    assert later[i].subject == later[j].subject && later[i].assertionId == later[j].assertionId;
  }

  /** What one call does to the table's duplicates, by whether it commits over a row of the record. */
  predicate Doubles(w: World, next: World, over: bool) {
    && (NoDuplicates(w.graph.tables.rows) ==> (NoDuplicates(next.graph.tables.rows) <==> !over))
    && RowsKept(w.graph.tables.rows, next.graph.tables.rows)
  }

  lemma {:induction false} DoublesAlong(ws: seq<World>, over: seq<bool>, i: nat)
    requires |ws| == |over| + 1 && forall k :: 0 <= k < |over| ==> Doubles(ws[k], ws[k + 1], over[k])
    requires i <= |over| && NoDuplicates(ws[0].graph.tables.rows)
    ensures NoDuplicates(ws[i].graph.tables.rows) <==> forall k :: 0 <= k < i ==> !over[k]
  {
    if i > 0 {
      DoublesAlong(ws, over, i - 1);
      assert Doubles(ws[i - 1], ws[i], over[i - 1]);
      if !NoDuplicates(ws[i - 1].graph.tables.rows) {
        DuplicatesStay(ws[i - 1].graph.tables.rows, ws[i].graph.tables.rows);
      }
    }
  }

  /** Which of the calls commit a record that the graph holds then. */
  function OverRecorded(cfg: Config, ws: seq<World>, calls: seq<Call>): seq<bool>
    requires |ws| == |calls| + 1
  {
    seq(|calls|, k requires 0 <= k < |calls| => CommitsOverRecorded(cfg, ws[k], calls[k]))
  }

  /** Which of them commit one that has a revoked row then. */
  function OverHidden(cfg: Config, ws: seq<World>, calls: seq<Call>): seq<bool>
    requires |ws| == |calls| + 1
  {
    seq(|calls|, k requires 0 <= k < |calls| => CommitsOverHidden(cfg, ws[k], calls[k]))
  }

  lemma CallDoubles(cfg: Config, w: World, call: Call)
    requires !cfg.adapter.upserts
    ensures Doubles(w, Execute(cfg, w, call.plan, call.comp), CommitsOverRecorded(cfg, w, call))
  {
    ExecuteGraph(cfg, w, call.plan, call.comp);
    CommitKeepsRows(cfg, w.graph, call.plan, call.comp);
    if NoDuplicates(w.graph.tables.rows) { CallDuplicatesIff(cfg, w, call); }
  }

  /** On a store that appends, over any run of any plans: no record has two rows exactly as long
      as no call has committed one that the graph held. */
  lemma NeverDuplicatesIff(cfg: Config, ws: seq<World>, calls: seq<Call>, i: nat)
    requires !cfg.adapter.upserts && IsRun(cfg, ws, calls) && i <= |calls| && NoDuplicates(ws[0].graph.tables.rows)
    ensures NoDuplicates(ws[i].graph.tables.rows) <==> forall k :: 0 <= k < i ==> !OverRecorded(cfg, ws, calls)[k]
  {
    var over := OverRecorded(cfg, ws, calls);
    forall k | 0 <= k < |over| ensures Doubles(ws[k], ws[k + 1], over[k]) {
      CallDoubles(cfg, ws[k], calls[k]);
    }
    DoublesAlong(ws, over, i);
  }

  /** Where all plans guard their attaches, replayed or replanned at whatever epoch, that is as
      long as no call has committed a record that had a revoked row. */
  lemma GuardedNeverDuplicatesIff(cfg: Config, ws: seq<World>, calls: seq<Call>, i: nat)
    requires !cfg.adapter.upserts && cfg.hasReader && IsRun(cfg, ws, calls) && i <= |calls|
    requires (forall call <- calls :: GuardsAttaches(call.plan)) && NoDuplicates(ws[0].graph.tables.rows)
    ensures NoDuplicates(ws[i].graph.tables.rows) <==> forall k :: 0 <= k < i ==> !OverHidden(cfg, ws, calls)[k]
  {
    NeverDuplicatesIff(cfg, ws, calls, i);
    forall k | 0 <= k < |calls| ensures OverRecorded(cfg, ws, calls)[k] == OverHidden(cfg, ws, calls)[k] {
      assert calls[k] in calls;
      if Commits(cfg, ws[k].graph, calls[k].plan) { GuardedMintsIff(cfg, ws[k].graph, calls[k].plan); }
    }
  }

  /* ---------- runs without revoked records ---------- */

  predicate NoneRevoked(rows: seq<Assertion>) { forall a <- rows :: a.status != REVOKED }

  /** The plan attaches no record as revoked. */
  predicate AttachesNoneRevoked(plan: Plan) {
    forall op <- plan.operations :: op.opType == ATTACH_ASSERTION && op.payload.AssertionDump? ==>
      op.payload.assertion.status != REVOKED
  }

  lemma StepKeepsNoneRevoked(adapter: Adapter, t: Tables, op: Operation, newEpoch: nat)
    requires NoneRevoked(t.rows) && ApplyOp(adapter, t, op, newEpoch).Ran?
    requires op.opType == ATTACH_ASSERTION && op.payload.AssertionDump? ==> op.payload.assertion.status != REVOKED
    ensures NoneRevoked(ApplyOp(adapter, t, op, newEpoch).tables.rows)
  {
  }

  lemma {:induction false} RunKeepsNoneRevoked(adapter: Adapter, t: Tables, ops: seq<Operation>, newEpoch: nat)
    requires NoneRevoked(t.rows) && RunOps(adapter, t, ops, newEpoch).Ran?
    requires forall op <- ops :: op.opType == ATTACH_ASSERTION && op.payload.AssertionDump? ==>
               op.payload.assertion.status != REVOKED
    ensures NoneRevoked(RunOps(adapter, t, ops, newEpoch).tables.rows)
    decreases ops
  {
    if ops != [] {
      assert ops[0] in ops;
      StepKeepsNoneRevoked(adapter, t, ops[0], newEpoch);
      RunKeepsNoneRevoked(adapter, ApplyOp(adapter, t, ops[0], newEpoch).tables, ops[1..], newEpoch);
    }
  }

  lemma AttemptKeepsNoneRevoked(cfg: Config, g: GraphState, plan: Plan, comp: bool)
    requires NoneRevoked(g.tables.rows) && AttachesNoneRevoked(plan)
    ensures NoneRevoked(Attempt(cfg, g, plan, comp).0.tables.rows)
  {
    AttemptCases(cfg, g, plan, comp);
    if Commits(cfg, g, plan) {
      CommitFacts(cfg, g, plan, comp);
      RunKeepsNoneRevoked(cfg.adapter, g.tables, plan.operations, g.epoch + 1);
    }
  }

  /** A run whose plans attach no record as revoked never holds one. */
  lemma {:induction false} NoneRevokedThroughout(cfg: Config, ws: seq<World>, calls: seq<Call>, i: nat)
    requires IsRun(cfg, ws, calls) && i <= |calls| && NoneRevoked(ws[0].graph.tables.rows)
    requires forall call <- calls :: AttachesNoneRevoked(call.plan)
    ensures NoneRevoked(ws[i].graph.tables.rows)
  {
    if i > 0 {
      NoneRevokedThroughout(cfg, ws, calls, i - 1);
      var call := calls[i - 1];
      assert ws[i] == Execute(cfg, ws[i - 1], call.plan, call.comp) && call in calls;
      ExecuteGraph(cfg, ws[i - 1], call.plan, call.comp);
      AttemptKeepsNoneRevoked(cfg, ws[i - 1].graph, call.plan, call.comp);
    }
  }

  /** So over such a run, with every attach guarded, no record ever has two rows, on a store
      that appends either. */
  lemma NeverDuplicates(cfg: Config, ws: seq<World>, calls: seq<Call>, i: nat)
    requires IsRun(cfg, ws, calls) && i <= |calls| && NoDuplicates(ws[0].graph.tables.rows)
    requires cfg.adapter.upserts
             || (cfg.hasReader && NoneRevoked(ws[0].graph.tables.rows)
                 && forall call <- calls :: GuardsAttaches(call.plan) && AttachesNoneRevoked(call.plan))
    ensures NoDuplicates(ws[i].graph.tables.rows)
  {
    if cfg.adapter.upserts {
      UpsertNeverDuplicates(cfg, ws, calls, i);
    } else {
      forall k | 0 <= k < i ensures !OverHidden(cfg, ws, calls)[k] {
        NoneRevokedThroughout(cfg, ws, calls, k);
      }
      GuardedNeverDuplicatesIff(cfg, ws, calls, i);
    }
  }

  /* ---------- a revoked record comes twice ---------- */

  /** A plan that attaches one record, guarded by its absence. */
  function GuardedAttach(a: Assertion): Plan {
    Plan("pl_1", ["cand_1"], "0", [Operation("op_1", ATTACH_ASSERTION, AssertionDump(a), MalformedInverse)],
         [AbsentGuard(a.subject, a.assertionId)], [], "1")
  }

  const REFERENCE_EXECUTOR: Config := Config(REFERENCE, DEFAULT_SUPPORTED, true)

  lemma GuardedAttachCommits(g: GraphState, a: Assertion)
    requires !Present(g.tables.rows, a.subject, a.assertionId)
    ensures GuardsAttaches(GuardedAttach(a)) && Commits(REFERENCE_EXECUTOR, g, GuardedAttach(a))
    ensures Attempt(REFERENCE_EXECUTOR, g, GuardedAttach(a), false).0.tables.rows ==
            g.tables.rows + [a.(epoch := g.epoch + 1)]
  {
    var plan := GuardedAttach(a);
    var op, guard := plan.operations[0], plan.preconditions[0];
    assert Minted([op]) == MintedBy(op) + Minted([]) by { assert [op][1..] == []; }
    SelfConflictIff(plan.operations);
    assert Unmet(g, [guard]) == [] && FailedOf(g.versions, [guard]) == [] by { assert [guard][1..] == []; }
    Rollback.RunSingle(REFERENCE, g.tables, op, g.epoch + 1);
    assert UnsupportedTypes(DEFAULT_SUPPORTED, plan.operations) == {};
    assert plan.preconditions[0] in plan.preconditions;
  }

  /** The input on which the guards fail: from the empty graph of the reference store, a record
      attached as revoked is attached a second time, by the same guarded plan. */
  lemma RevokedRecordComesTwice(a: Assertion)
    requires a.status == REVOKED
    ensures var plan, empty := GuardedAttach(a), GraphState(Tables([], map[]), map[], 0);
            var once := Attempt(REFERENCE_EXECUTOR, empty, plan, false).0;
            && GuardsAttaches(plan)
            && Commits(REFERENCE_EXECUTOR, empty, plan) && Commits(REFERENCE_EXECUTOR, once, plan)
            && !NoDuplicates(Attempt(REFERENCE_EXECUTOR, once, plan, false).0.tables.rows)
  {
    var plan, empty := GuardedAttach(a), GraphState(Tables([], map[]), map[], 0);
    var once := Attempt(REFERENCE_EXECUTOR, empty, plan, false).0;
    GuardedAttachCommits(empty, a);
    GuardedAttachCommits(once, a);
    assert once.tables.rows == [a.(epoch := 1)];
    var rows := Attempt(REFERENCE_EXECUTOR, once, plan, false).0.tables.rows;
    assert rows[0].subject == rows[1].subject && rows[0].assertionId == rows[1].assertionId;
  }
}
