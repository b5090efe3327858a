/** Evidence evolution (src/kgcs/recuration/evolution.py): the next record of a fact, and the
    plan that retires one record in favour of another. */
module Evolution {
  import opened Wrappers
  import opened Contracts
  import opened Records
  import opened Sequences
  import opened GraphStore
  import opened Rollback
  import opened Planning

  datatype Trigger = Trigger(triggerId: Id, evidenceIds: seq<Id>, provenance: map<string, string>)

  datatype EvolutionKind = RELABEL | CORROBORATION | SUPERSESSION | CONFLICT

  datatype EvolutionError = Replay | Unstable(typeName: string) | SelfSupersession | DifferentFact | NotActive

  datatype EvolutionResult = EvolutionResult(
    kind: EvolutionKind,
    plan: Plan,
    superseded: seq<Assertion>,
    conflict: Option<(Id, Id)>,
    reviewRequired: bool)

  /** The arguments of `next_record`; None leaves a field as it was. */
  datatype Change = Change(
    evidence: seq<EvidenceRef>,
    recordedAt: Instant,
    objectValue: Option<ObjectValue>,
    objectIdentity: Option<Option<string>>,
    validPeriod: Option<ValidPeriod>,
    provenance: Option<Provenance>,
    authority: Option<string>,
    traceId: Option<string>)

  function Or<T>(o: Option<T>, default: T): T { if o.Some? then o.value else default }

  /* ---------- seeds ---------- */

  /** Digests are hexadecimal texts. */
  ghost predicate Hexadecimal(digest: string -> string) { forall s :: NulFree(digest(s)) }

  lemma FactIsNulFree(digest: string -> string, a: Assertion)
    requires Hexadecimal(digest)
    ensures NulFree(FactOf(digest, a))
  {
    assert NulFree("fact_");
  }

  predicate Renderable(a: Assertion) { !a.content.objectValue.Unrenderable? }

  /* ---------- the next record ---------- */

  function Successor(prior: Assertion, c: Change): Assertion {
    prior.(
      content := Content(
        Or(c.objectValue, prior.content.objectValue),
        Or(c.objectIdentity, prior.content.objectIdentity),
        if c.validPeriod.Some? then c.validPeriod else prior.content.validPeriod,
        c.evidence,
        if c.provenance.Some? then c.provenance else prior.content.provenance),
      authority := Or(c.authority, prior.authority),
      recordedAt := c.recordedAt,
      status := ACTIVE,
      supersededAt := None,
      supersededBy := None,
      sourceCandidates := [],
      epoch := 0,
      traceId := Or(c.traceId, prior.traceId))
  }

  function NextRecord(p: Planner, prior: Assertion, c: Change): Result<Assertion, EvolutionError> {
    var successor := Successor(prior, c);
    match SeedOf(p.digest, successor)
    case Err(e) => Err(Unstable(e.typeName))
    case Ok(seed) =>
      match SeedOf(p.digest, prior)
      case Err(e) => Err(Unstable(e.typeName))
      case Ok(priorSeed) =>
        if seed == priorSeed then Err(Replay)
        else Ok(successor.(assertionId := p.ids.AssertionId(seed)))
  }

  /** A replay is refused, and nothing else: the refusal says exactly that the successor is the
      same record as its prior. */
  lemma NextRecordIff(p: Planner, prior: Assertion, c: Change)
    requires Hexadecimal(p.digest) && Renderable(prior) && Renderable(Successor(prior, c))
    ensures NextRecord(p, prior, c) == Err(Replay) <==> SameRecord(Successor(prior, c).content, prior.content)
    ensures NextRecord(p, prior, c).Ok? <==> !SameRecord(Successor(prior, c).content, prior.content)
  {
    FactIsNulFree(p.digest, prior);
    RecordSeedIff(FactOf(p.digest, prior), Successor(prior, c).content, FactOf(p.digest, prior), prior.content);
  }

  /** The next record holds what was asked for: each field given is the one given, each other
      one is the prior's; the evidence and the time are new, and it has no candidate, no
      retirement and no commit yet. */
  lemma NextRecordHolds(p: Planner, prior: Assertion, c: Change)
    requires NextRecord(p, prior, c).Ok?
    ensures var next := NextRecord(p, prior, c).value;
            && next.subject == prior.subject && next.attribute == prior.attribute
            && next.content.objectValue ==
               (if c.objectValue.Some? then c.objectValue.value else prior.content.objectValue)
            && next.content.objectIdentity ==
               (if c.objectIdentity.Some? then c.objectIdentity.value else prior.content.objectIdentity)
            && next.content.validPeriod == (if c.validPeriod.Some? then c.validPeriod else prior.content.validPeriod)
            && next.content.provenance == (if c.provenance.Some? then c.provenance else prior.content.provenance)
            && next.authority == (if c.authority.Some? then c.authority.value else prior.authority)
            && next.traceId == (if c.traceId.Some? then c.traceId.value else prior.traceId)
            && next.content.evidence == c.evidence && next.recordedAt == c.recordedAt
            && next.status == ACTIVE && next.supersededAt == None && next.supersededBy == None
            && next.sourceCandidates == [] && next.epoch == 0
  {
  }

  /** The evidence is the same and whatever is given agrees with the prior: the object as it is
      rendered, the identity, the period (none is the open one), and the origin without who
      processed it. */
  predicate AsksNothingNew(prior: Content, c: Change)
    requires !prior.objectValue.Unrenderable? && (c.objectValue.Some? ==> !c.objectValue.value.Unrenderable?)
  {
    && c.evidence == prior.evidence
    && (c.objectValue.Some? ==>
          var v, w := c.objectValue.value, prior.objectValue;
          v == w || TaggedTwin(v, w) || TaggedTwin(w, v))
    && (c.objectIdentity.Some? ==> c.objectIdentity.value == prior.objectIdentity)
    && (c.validPeriod.Some? ==>
          c.validPeriod.value == if prior.validPeriod.Some? then prior.validPeriod.value else ValidPeriod(None, None))
    && (c.provenance.Some? ==>
          && prior.provenance.Some? && c.provenance.value.source == prior.provenance.value.source
          && c.provenance.value.sourceRef == prior.provenance.value.sourceRef)
  }

  /** A change is refused as a replay exactly where it asks for nothing new, and for a value no
      seed can hold exactly where the new record or its prior has one; otherwise there is a
      next record. */
  lemma NextRecordOutcome(p: Planner, prior: Assertion, c: Change)
    requires Hexadecimal(p.digest)
    ensures var r := NextRecord(p, prior, c);
            if c.objectValue.Some? && c.objectValue.value.Unrenderable?
            then r == Err(Unstable(c.objectValue.value.typeName))
            else if prior.content.objectValue.Unrenderable?
            then r == Err(Unstable(prior.content.objectValue.typeName))
            else (r == Err(Replay) <==> AsksNothingNew(prior.content, c))
                 && (r.Ok? <==> !AsksNothingNew(prior.content, c))
  {
    if Renderable(prior) && Renderable(Successor(prior, c)) {
      NextRecordIff(p, prior, c);
      ValueJsonIff(Successor(prior, c).content.objectValue, prior.content.objectValue);
    }
  }

  /** The record id was derived from the record's own content. */
  predicate Derived(p: Planner, a: Assertion) {
    SeedOf(p.digest, a).Ok? && a.assertionId == p.ids.AssertionId(SeedOf(p.digest, a).value)
  }

  /** The digest behind ids does not confuse the two seeds. */
  predicate NoCollision(p: Planner, a: Assertion, b: Assertion) {
    SeedOf(p.digest, a).Ok? && SeedOf(p.digest, b).Ok? &&
    var s, t := SeedOf(p.digest, a).value, SeedOf(p.digest, b).value;
    p.ids.sha(s) == p.ids.sha(t) ==> s == t
  }

  /** Two derived ids agree exactly when the records are the same record of the same fact. */
  lemma DerivedIdIff(p: Planner, a: Assertion, b: Assertion)
    requires Hexadecimal(p.digest) && Derived(p, a) && Derived(p, b) && NoCollision(p, a, b)
    ensures Renderable(a) && Renderable(b)
    ensures a.assertionId == b.assertionId <==>
            FactOf(p.digest, a) == FactOf(p.digest, b) && SameRecord(a.content, b.content)
  {
    p.ids.AssertionIdIff(SeedOf(p.digest, a).value, SeedOf(p.digest, b).value);
    FactIsNulFree(p.digest, a);
    FactIsNulFree(p.digest, b);
    RecordSeedIff(FactOf(p.digest, a), a.content, FactOf(p.digest, b), b.content);
  }

  /** A successor is a live record of the same slot with a derived id, and the id is a new one
      unless the digest collides. */
  lemma NextRecordIsNew(p: Planner, prior: Assertion, c: Change)
    requires Hexadecimal(p.digest) && NextRecord(p, prior, c).Ok?
    ensures var next := NextRecord(p, prior, c).value;
            && next.subject == prior.subject && next.attribute == prior.attribute
            && next.status == ACTIVE && next.supersededBy == None && next.supersededAt == None
            && Derived(p, next)
            && (Derived(p, prior) && NoCollision(p, next, prior) ==> next.assertionId != prior.assertionId)
  {
    var next := NextRecord(p, prior, c).value;
    assert SeedOf(p.digest, next) == SeedOf(p.digest, Successor(prior, c));
    if Derived(p, prior) && NoCollision(p, next, prior) {
      p.ids.AssertionIdIff(SeedOf(p.digest, next).value, SeedOf(p.digest, prior).value);
    }
  }

  /** The guard looks one step back only.  Going from a record to other content and back is not
      refused, and the way back mints the first record's id again.  `second` is any row with
      the content of the first step, as a store returns it. */
  lemma WayBackMintsOldId(p: Planner, first: Assertion, away: Change, second: Assertion, back: Change)
    requires Hexadecimal(p.digest) && Derived(p, first) && NextRecord(p, first, away).Ok?
    requires second.subject == first.subject && second.attribute == first.attribute
    requires second.content == NextRecord(p, first, away).value.content
    requires Renderable(Successor(second, back)) && SameRecord(Successor(second, back).content, first.content)
    ensures var again := NextRecord(p, second, back); again.Ok? && again.value.assertionId == first.assertionId
  {
    var third := Successor(second, back);
    assert SeedOf(p.digest, second) == SeedOf(p.digest, Successor(first, away));
    FactIsNulFree(p.digest, first);
    RecordSeedIff(FactOf(p.digest, first), third.content, FactOf(p.digest, first), first.content);
    assert SeedOf(p.digest, third) == SeedOf(p.digest, first);
  }

  /** Nothing but the evidence. */
  function Citing(evidence: seq<EvidenceRef>, at: Instant): Change {
    Change(evidence, at, None, None, None, None, None, None)
  }

  /** The way back is open from every record: cite one more source, then the first ones again. */
  lemma WayBackIsOpen(p: Planner, first: Assertion, ref: EvidenceRef, at: Instant, second: Assertion, later: Instant)
    requires Hexadecimal(p.digest) && Derived(p, first)
    requires second.subject == first.subject && second.attribute == first.attribute
    requires second.content == Successor(first, Citing(first.content.evidence + [ref], at)).content
    ensures NextRecord(p, first, Citing(first.content.evidence + [ref], at)).Ok?
    ensures var again := NextRecord(p, second, Citing(first.content.evidence, later));
            again.Ok? && again.value.assertionId == first.assertionId
  {
    var away, back := Citing(first.content.evidence + [ref], at), Citing(first.content.evidence, later);
    assert |Successor(first, away).content.evidence| == |first.content.evidence| + 1;
    NextRecordIff(p, first, away);
    WayBackMintsOldId(p, first, away, second, back);
  }

  /* ---------- plans ---------- */

  function KindName(k: EvolutionKind): string {
    match k
    case RELABEL => "RELABEL"
    case CORROBORATION => "CORROBORATION"
    case SUPERSESSION => "SUPERSESSION"
    case CONFLICT => "CONFLICT"
  }

  function EvidenceOf(a: Assertion): seq<Id> {
    seq(|a.content.evidence|, i requires 0 <= i < |a.content.evidence| => a.content.evidence[i].evidenceId)
  }

  function OpId(p: Planner, t: Trigger, typeName: string, target: Id): Id {
    p.ids.OperationId("recur:" + t.triggerId + ":" + typeName + ":" + target)
  }

  function AttachOp(p: Planner, t: Trigger, a: Assertion): Operation {
    Operation(OpId(p, t, "ATTACH_ASSERTION", a.assertionId), ATTACH_ASSERTION, AssertionDump(Dumped(a)),
              Inverse(RetractInverse(a), Lineage.Provenance(t.provenance)))
  }

  function RetireOp(p: Planner, t: Trigger, prior: Assertion, successor: Assertion): Operation {
    Operation(OpId(p, t, "RETRACT_ASSERTION", prior.assertionId), RETRACT_ASSERTION,
              StatusChange(prior.assertionId, prior.subject, Some(SUPERSEDED), Some(successor.recordedAt),
                           Some(successor.assertionId)),
              Inverse(AssertionDump(Dumped(prior)), Lineage.Provenance(t.provenance)))
  }

  /** The plan of any evolution: one snapshot guard and no other. */
  function ResultPlan(p: Planner, kind: EvolutionKind, t: Trigger, ops: seq<Operation>, subject: Id,
                      extraEvidence: seq<Id>): Plan {
    Plan(p.ids.PlanId("recur:" + t.triggerId + ":" + KindName(kind)), [subject], p.snapshotVersion, ops,
         [Precondition(SnapshotVersion, subject, p.snapshotVersion)],
         FirstSeen(t.evidenceIds + extraEvidence), p.policyVersion)
  }

  function PlanRelabel(p: Planner, relabelled: Assertion, t: Trigger): EvolutionResult {
    EvolutionResult(RELABEL, ResultPlan(p, RELABEL, t, [AttachOp(p, t, relabelled)], relabelled.subject, []), [], None,
                    false)
  }

  function PlanCorroboration(p: Planner, a: Assertion, t: Trigger): EvolutionResult {
    EvolutionResult(
      CORROBORATION, ResultPlan(p, CORROBORATION, t, [AttachOp(p, t, a)], a.subject, EvidenceOf(a)), [], None, false)
  }

  /** Both sides stay; the work goes to review. */
  function PlanConflict(p: Planner, subject: Assertion, competing: Assertion, t: Trigger): EvolutionResult {
    EvolutionResult(
      CONFLICT, ResultPlan(p, CONFLICT, t, [AttachOp(p, t, competing)], subject.subject, EvidenceOf(competing)), [],
      Some((subject.assertionId, competing.assertionId)), true)
  }

  function CheckSupersedes(p: Planner, prior: Assertion, next: Assertion): Option<EvolutionError> {
    if prior.assertionId == next.assertionId then Some(SelfSupersession)
    else if FactOf(p.digest, prior) != FactOf(p.digest, next) then Some(DifferentFact)
    else if prior.status != ACTIVE then Some(NotActive)
    else None
  }

  function PlanSupersession(p: Planner, prior: Assertion, next: Assertion, t: Trigger): Result<EvolutionResult,
                            EvolutionError> {
    match CheckSupersedes(p, prior, next)
    case Some(e) => Err(e)
    case None =>
      var ops := [AttachOp(p, t, next), RetireOp(p, t, prior, next)];
      Ok(EvolutionResult(
        SUPERSESSION, ResultPlan(p, SUPERSESSION, t, ops, next.subject, EvidenceOf(next)),
        [Retired(prior, next.recordedAt, Some(next.assertionId))], None, false))
  }

  /** A supersession is planned exactly for a live record and another record of the same slot;
      each of the three refusals says which of that failed first. */
  lemma PlanSupersessionIff(p: Planner, prior: Assertion, next: Assertion, t: Trigger)
    requires NulFree(prior.subject) && NulFree(next.subject)
    requires var s, u := prior.subject + (NUL + prior.attribute), next.subject + (NUL + next.attribute);
             p.digest(s) == p.digest(u) ==> s == u
    ensures var r := PlanSupersession(p, prior, next, t);
            var same := prior.subject == next.subject && prior.attribute == next.attribute;
            && (r.Ok? <==> prior.assertionId != next.assertionId && same && prior.status == ACTIVE)
            && (r == Err(SelfSupersession) <==> prior.assertionId == next.assertionId)
            && (r == Err(DifferentFact) <==> prior.assertionId != next.assertionId && !same)
            && (r == Err(NotActive) <==> prior.assertionId != next.assertionId && same && prior.status != ACTIVE)
  {
    FactKeyIff(p.digest, prior.subject, prior.attribute, next.subject, next.attribute);
  }

  lemma AttachFresh(p: Planner, adapter: Adapter, g: Tables, next: Assertion, t: Trigger, newEpoch: nat)
    requires ATTACH_ASSERTION in adapter.implemented && RowWithId(g.rows, next.assertionId) == |g.rows|
    ensures ApplyOp(adapter, g, AttachOp(p, t, next), newEpoch) ==
            Ran(g.(rows := g.rows + [Dumped(next).(epoch := newEpoch)]))
    ensures Enabled(g.entities.Keys, g, AttachOp(p, t, next))
  {
    RowOfIs(g.rows, next.subject, next.assertionId, |g.rows|);
  }

  lemma RetireRow(p: Planner, adapter: Adapter, g: Tables, prior: Assertion, next: Assertion, t: Trigger, newEpoch: nat)
    requires RETRACT_ASSERTION in adapter.implemented && prior.assertionId != next.assertionId
    requires RowWithId(g.rows, prior.assertionId) < |g.rows|
    ensures var i := RowWithId(g.rows, prior.assertionId);
            ApplyOp(adapter, g, RetireOp(p, t, prior, next), newEpoch) ==
            Ran(g.(rows := g.rows[i := Retired(g.rows[i], next.recordedAt, Some(next.assertionId))]))
  {
  }

  /** Where the successor's id is new to the graph and `prior` is the row as it stands, the
      store ends up with the retired copy the planner returned, in prior's place, and the
      successor at the end. */
  lemma SupersessionResult(p: Planner, adapter: Adapter, g: Tables, prior: Assertion, next: Assertion, t: Trigger,
                           newEpoch: nat)
    requires PlanSupersession(p, prior, next, t).Ok?
    requires ATTACH_ASSERTION in adapter.implemented && RETRACT_ASSERTION in adapter.implemented
    requires RowWithId(g.rows, next.assertionId) == |g.rows|
    requires RowWithId(g.rows, prior.assertionId) < |g.rows| && g.rows[RowWithId(g.rows, prior.assertionId)] == prior
    ensures var r, i := PlanSupersession(p, prior, next, t).value, RowWithId(g.rows, prior.assertionId);
            RunOps(adapter, g, r.plan.operations, newEpoch) ==
            Ran(g.(rows := g.rows[i := r.superseded[0]] + [Dumped(next).(epoch := newEpoch)]))
  {
    var i, a := RowWithId(g.rows, prior.assertionId), Dumped(next).(epoch := newEpoch);
    var retired := Retired(prior, next.recordedAt, Some(next.assertionId));
    var mid := g.(rows := g.rows + [a]);
    AttachFresh(p, adapter, g, next, t, newEpoch);
    RowWithIdIs(mid.rows, prior.assertionId, i);
    RetireRow(p, adapter, mid, prior, next, t, newEpoch);
    assert mid.rows[i := retired] == g.rows[i := retired] + [a];
    RunPair(adapter, g, mid, AttachOp(p, t, next), RetireOp(p, t, prior, next), newEpoch);
  }

  lemma RunPair(adapter: Adapter, t: Tables, mid: Tables, a: Operation, b: Operation, newEpoch: nat)
    requires ApplyOp(adapter, t, a, newEpoch) == Ran(mid)
    ensures RunOps(adapter, t, [a, b], newEpoch) == ApplyOp(adapter, mid, b, newEpoch)
    ensures var before := t.entities.Keys;
            Enabled(before, t, a) && Enabled(before, mid, b) && ApplyOp(adapter, mid, b, newEpoch).Ran? ==>
            EnabledAll(adapter, t, [a, b], newEpoch)
  {
    assert [a, b][1..] == [b] && [b][1..] == [];
    var step := ApplyOp(adapter, mid, b, newEpoch);
    if step.Ran? {
      assert RunOps(adapter, step.tables, [], newEpoch) == step;
      assert EnabledFrom(adapter, t.entities.Keys, step.tables, [], newEpoch);
    }
    assert RunOps(adapter, mid, [b], newEpoch) == step;
  }

  /** Such a supersession of a row as it stands is one a rollback undoes. */
  lemma SupersessionCanRollBack(p: Planner, adapter: Adapter, g: Tables, prior: Assertion, next: Assertion,
                                t: Trigger, newEpoch: nat)
    requires PlanSupersession(p, prior, next, t).Ok?
    requires ATTACH_ASSERTION in adapter.implemented && RETRACT_ASSERTION in adapter.implemented
    requires RowWithId(g.rows, next.assertionId) == |g.rows|
    requires RowWithId(g.rows, prior.assertionId) < |g.rows| && g.rows[RowWithId(g.rows, prior.assertionId)] == prior
    requires JsonMode(prior.content.objectValue) == prior.content.objectValue
    ensures EnabledAll(adapter, g, PlanSupersession(p, prior, next, t).value.plan.operations, newEpoch)
  {
    var i, mid := RowWithId(g.rows, prior.assertionId), g.(rows := g.rows + [Dumped(next).(epoch := newEpoch)]);
    AttachFresh(p, adapter, g, next, t, newEpoch);
    RowWithIdIs(mid.rows, prior.assertionId, i);
    RetireRow(p, adapter, mid, prior, next, t, newEpoch);
    assert Enabled(g.entities.Keys, mid, RetireOp(p, t, prior, next));
    RunPair(adapter, g, mid, AttachOp(p, t, next), RetireOp(p, t, prior, next), newEpoch);
  }

  /** Relabelling, corroboration and an unresolved conflict only add: where the new record's id
      is new, every row stays exactly as it is and the record goes in behind.  Only a conflict
      asks for review, and it links the two records without choosing one. */
  lemma AdditionsKeepEverything(p: Planner, adapter: Adapter, g: Tables, subject: Assertion, a: Assertion, t: Trigger,
                                newEpoch: nat)
    requires ATTACH_ASSERTION in adapter.implemented && RowWithId(g.rows, a.assertionId) == |g.rows|
    ensures forall r <- [PlanRelabel(p, a, t), PlanCorroboration(p, a, t), PlanConflict(p, subject, a, t)] ::
              && RunOps(adapter, g, r.plan.operations, newEpoch) ==
                 Ran(g.(rows := g.rows + [Dumped(a).(epoch := newEpoch)]))
              && r.superseded == [] && r.reviewRequired == r.conflict.Some?
              && (r.conflict.Some? ==> r.kind == CONFLICT && r.conflict.value == (subject.assertionId, a.assertionId))
  {
    AttachFresh(p, adapter, g, a, t, newEpoch);
    RunSingle(adapter, g, AttachOp(p, t, a), newEpoch);
  }

  /** The pointer a retirement's payload carries. */
  function SupersededPointer(p: Payload): Option<Id> {
    if p.StatusChange? then p.supersededBy else None
  }

  /** The pointer in the payload and the one on the returned copy name the successor. */
  lemma PointersAgree(p: Planner, prior: Assertion, next: Assertion, t: Trigger)
    requires PlanSupersession(p, prior, next, t).Ok?
    ensures var r := PlanSupersession(p, prior, next, t).value;
            SupersededPointer(r.plan.operations[1].payload) == r.superseded[0].supersededBy == Some(next.assertionId)
            != Some(prior.assertionId)
  {
  }
}
