/** What an evolution plan holds (src/kgcs/recuration/evolution.py), told from the records and
    the trigger it is made of. */
module EvolutionPlans {
  import opened Wrappers
  import opened CanonicalJson
  import opened Contracts
  import opened Records
  import opened Sequences
  import opened GraphStore
  import opened Planning
  import opened Evolution

  /** The record as its JSON dump gives it back: not committed yet, and a date as its text. */
  predicate IsDumpOf(b: Assertion, a: Assertion) {
    && b.epoch == 0
    && b.content.objectValue ==
       (if a.content.objectValue.Temporal? then Native(Str(a.content.objectValue.iso)) else a.content.objectValue)
    && b == a.(epoch := b.epoch, content := a.content.(objectValue := b.content.objectValue))
  }

  /** Attaches the record, and keeps what retires it at the time it was recorded. */
  predicate AttachesRecord(op: Operation, p: Planner, t: Trigger, a: Assertion) {
    && op.opType == ATTACH_ASSERTION && op.payload.AssertionDump? && IsDumpOf(op.payload.assertion, a)
    && op.operationId == p.ids.OperationId("recur:" + t.triggerId + ":ATTACH_ASSERTION:" + a.assertionId)
    && op.reversal == Inverse(StatusChange(a.assertionId, a.subject, Some(SUPERSEDED), Some(a.recordedAt), None),
                              Lineage.Provenance(t.provenance))
  }

  /** Retires the prior in favour of its successor at the successor's time, and keeps the prior
      to attach again. */
  predicate RetiresRecord(op: Operation, p: Planner, t: Trigger, prior: Assertion, next: Assertion) {
    && op.opType == RETRACT_ASSERTION
    && op.payload == StatusChange(prior.assertionId, prior.subject, Some(SUPERSEDED), Some(next.recordedAt),
                                  Some(next.assertionId))
    && op.operationId == p.ids.OperationId("recur:" + t.triggerId + ":RETRACT_ASSERTION:" + prior.assertionId)
    && op.reversal.Inverse? && op.reversal.payload.AssertionDump? && IsDumpOf(op.reversal.payload.assertion, prior)
    && op.reversal.lineage == Lineage.Provenance(t.provenance)
  }

  /** Filed under one identity, guarded by the snapshot alone. */
  predicate FiledUnder(plan: Plan, p: Planner, t: Trigger, kindName: string, subject: Id) {
    && plan.planId == p.ids.PlanId("recur:" + t.triggerId + ":" + kindName)
    && plan.candidateIds == [subject]
    && plan.snapshotVersion == p.snapshotVersion && plan.policyVersion == p.policyVersion
    && plan.preconditions == [Precondition(SnapshotVersion, subject, p.snapshotVersion)]
  }

  lemma KindsAreFiled(p: Planner, kind: EvolutionKind, t: Trigger, ops: seq<Operation>, subject: Id, extra: seq<Id>)
    ensures var name := match kind
                        case RELABEL => "RELABEL" case CORROBORATION => "CORROBORATION"
                        case SUPERSESSION => "SUPERSESSION" case CONFLICT => "CONFLICT";
            var plan := ResultPlan(p, kind, t, ops, subject, extra);
            FiledUnder(plan, p, t, name, subject) && plan.operations == ops
  {
  }

  lemma AttachIs(p: Planner, t: Trigger, a: Assertion)
    ensures AttachesRecord(AttachOp(p, t, a), p, t, a)
  {
    var s := "recur:" + t.triggerId + ":";
    assert s + "ATTACH_ASSERTION" + ":" + a.assertionId ==
           "recur:" + t.triggerId + ":ATTACH_ASSERTION:" + a.assertionId;
  }

  lemma RetireIs(p: Planner, t: Trigger, prior: Assertion, next: Assertion)
    ensures RetiresRecord(RetireOp(p, t, prior, next), p, t, prior, next)
  {
    var s := "recur:" + t.triggerId + ":";
    assert s + "RETRACT_ASSERTION" + ":" + prior.assertionId ==
           "recur:" + t.triggerId + ":RETRACT_ASSERTION:" + prior.assertionId;
  }

  /** Relabelling, corroboration and conflict attach one record and nothing else.  A conflict is
      filed under the record it is about, links the two without a winner, and goes to review. */
  lemma AdditionsAre(p: Planner, subject: Assertion, a: Assertion, t: Trigger)
    ensures var r := PlanRelabel(p, a, t);
            && r.kind == RELABEL && |r.plan.operations| == 1 && AttachesRecord(r.plan.operations[0], p, t, a)
            && FiledUnder(r.plan, p, t, "RELABEL", a.subject)
            && r.superseded == [] && r.conflict == None && !r.reviewRequired
    ensures var r := PlanCorroboration(p, a, t);
            && r.kind == CORROBORATION && |r.plan.operations| == 1 && AttachesRecord(r.plan.operations[0], p, t, a)
            && FiledUnder(r.plan, p, t, "CORROBORATION", a.subject)
            && r.superseded == [] && r.conflict == None && !r.reviewRequired
    ensures var r := PlanConflict(p, subject, a, t);
            && r.kind == CONFLICT && |r.plan.operations| == 1 && AttachesRecord(r.plan.operations[0], p, t, a)
            && FiledUnder(r.plan, p, t, "CONFLICT", subject.subject)
            && r.superseded == [] && r.conflict == Some((subject.assertionId, a.assertionId)) && r.reviewRequired
  {
    AttachIs(p, t, a);
    KindsAreFiled(p, RELABEL, t, [AttachOp(p, t, a)], a.subject, []);
    KindsAreFiled(p, CORROBORATION, t, [AttachOp(p, t, a)], a.subject, EvidenceOf(a));
    KindsAreFiled(p, CONFLICT, t, [AttachOp(p, t, a)], subject.subject, EvidenceOf(a));
  }

  /** A supersession attaches the successor and then retires its prior, and returns the prior as
      retired. */
  lemma SupersessionIs(p: Planner, prior: Assertion, next: Assertion, t: Trigger)
    requires PlanSupersession(p, prior, next, t).Ok?
    ensures var r := PlanSupersession(p, prior, next, t).value;
            && r.kind == SUPERSESSION && |r.plan.operations| == 2
            && AttachesRecord(r.plan.operations[0], p, t, next)
            && RetiresRecord(r.plan.operations[1], p, t, prior, next)
            && FiledUnder(r.plan, p, t, "SUPERSESSION", next.subject)
            && r.superseded == [prior.(status := SUPERSEDED, supersededAt := Some(next.recordedAt),
                                       supersededBy := Some(next.assertionId))]
            && r.conflict == None && !r.reviewRequired
  {
    AttachIs(p, t, next);
    RetireIs(p, t, prior, next);
    KindsAreFiled(p, SUPERSESSION, t, [AttachOp(p, t, next), RetireOp(p, t, prior, next)], next.subject,
                  EvidenceOf(next));
  }

  lemma EvidenceOfHas(a: Assertion, id: Id)
    ensures id in EvidenceOf(a) <==> exists r <- a.content.evidence :: r.evidenceId == id
  {
    var refs := a.content.evidence;
    if id in EvidenceOf(a) {
      var i :| 0 <= i < |refs| && EvidenceOf(a)[i] == id;
      assert refs[i] in refs;
    }
    if r :| r in refs && r.evidenceId == id {
      var i :| 0 <= i < |refs| && refs[i] == r;
      assert EvidenceOf(a)[i] == id;
    }
  }

  lemma CitesIff(t: Trigger, extra: seq<Id>, id: Id)
    ensures id in FirstSeen(t.evidenceIds + extra) <==> id in t.evidenceIds || id in extra
    ensures NoRepeats(FirstSeen(t.evidenceIds + extra))
  {
    FirstSeenNoRepeats(t.evidenceIds + extra);
    FirstSeenHas(t.evidenceIds + extra, id);
  }

  /** Every plan cites the trigger's evidence, and all but a relabelling the new record's too;
      each piece once. */
  lemma PlansCite(p: Planner, prior: Assertion, a: Assertion, t: Trigger, id: Id)
    ensures var cited := exists r <- a.content.evidence :: r.evidenceId == id;
            && (id in PlanRelabel(p, a, t).plan.evidenceIds <==> id in t.evidenceIds)
            && (id in PlanCorroboration(p, a, t).plan.evidenceIds <==> id in t.evidenceIds || cited)
            && (id in PlanConflict(p, prior, a, t).plan.evidenceIds <==> id in t.evidenceIds || cited)
            && (PlanSupersession(p, prior, a, t).Ok? ==>
                  (id in PlanSupersession(p, prior, a, t).value.plan.evidenceIds <==> id in t.evidenceIds || cited))
    ensures NoRepeats(PlanRelabel(p, a, t).plan.evidenceIds)
    ensures NoRepeats(PlanCorroboration(p, a, t).plan.evidenceIds)
    ensures NoRepeats(PlanConflict(p, prior, a, t).plan.evidenceIds)
    ensures PlanSupersession(p, prior, a, t).Ok? ==>
              NoRepeats(PlanSupersession(p, prior, a, t).value.plan.evidenceIds)
  {
    EvidenceOfHas(a, id);
    CitesIff(t, [], id);
    CitesIff(t, EvidenceOf(a), id);
  }
}
