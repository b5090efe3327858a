/** What a plan holds (src/kgcs/planner.py), told from the items it is made of: which of them
    are planned, and what each operation carries. */
module PlanContents {
  import opened Wrappers
  import opened CanonicalJson
  import opened Contracts
  import opened Records
  import opened Sequences
  import opened Planning

  /** Routed for automatic application, with an identity, and with something to write: a new
      entity, a value, or a relation's object. */
  predicate IsPlanned(item: Item) {
    && item.resolution.automatic && item.resolution.identity.Some?
    && match item.candidate.claim
       case EntityClaim(_, _) => item.resolution.createNew
       case AttributeClaim(_, value, _) => value != Native(Null)
       case RelationClaim(_, object_, _) => object_.Some?
       case OtherClaim => false
  }

  function Wanted(): Item -> bool { (item: Item) => IsPlanned(item) }

  /** The claim's value is one no seed can hold. */
  predicate HasUnstableValue(item: Item) {
    item.candidate.claim.AttributeClaim? && item.candidate.claim.value.Unrenderable?
  }

  /** The entity as claimed, under the identity resolved, and the revocation that undoes it. */
  predicate CreatesEntity(p: Planner, op: Operation, item: Item) {
    var c := item.candidate;
    && op.opType == CREATE_IDENTITY && op.payload.EntityDump? && c.claim.EntityClaim?
    && op.operationId == p.ids.OperationId(c.candidateId + ":CREATE_IDENTITY")
    && var e := op.payload.entity;
    && Some(e.identityId) == item.resolution.identity
    && e.entityType == c.claim.entityType && e.displayName == c.claim.displayName
    && e.status == ACTIVE && e.createdAt == c.createdAt && e.epoch == 0
    && op.reversal == Inverse(IdentityRef(e.identityId, "rollback of CREATE_IDENTITY " + op.operationId),
                              Lineage.Provenance(map["identity_id" := e.identityId, "candidate_id" := c.candidateId]))
  }

  /** The content of the claim: its value as JSON dumps it or its object, its period (open where
      none is given), the evidence cited, and the origin. */
  predicate HoldsClaim(a: Assertion, c: Candidate) {
    && a.content.evidence == c.evidence
    && a.content.provenance == Some(Records.Provenance(c.source, Some(c.locator), c.producer))
    && match c.claim
       case AttributeClaim(attribute, value, period) =>
         && a.attribute == attribute && a.content.objectIdentity == None
         && a.content.objectValue == (if value.Temporal? then Native(Str(value.iso)) else value)
         && a.content.validPeriod == (if period.Some? then period else Some(ValidPeriod(None, None)))
       case RelationClaim(relationType, object_, period) =>
         && a.attribute == relationType && a.content.objectIdentity == object_
         && a.content.objectValue == Native(Null)
         && a.content.validPeriod == (if period.Some? then period else Some(ValidPeriod(None, None)))
       case _ => false
  }

  /** A live record of the claim about the identity resolved, and the retirement that undoes
      it. */
  predicate AttachesClaim(p: Planner, op: Operation, item: Item) {
    var c := item.candidate;
    && op.opType == ATTACH_ASSERTION && op.payload.AssertionDump?
    && op.operationId == p.ids.OperationId(c.candidateId + ":ATTACH_ASSERTION")
    && var a := op.payload.assertion;
    && Some(a.subject) == item.resolution.identity && HoldsClaim(a, c)
    && a.status == ACTIVE && a.recordedAt == c.createdAt && a.supersededAt == None && a.supersededBy == None
    && a.sourceCandidates == [c.candidateId] && a.authority == c.producer && a.traceId == c.traceId && a.epoch == 0
    && op.reversal == Inverse(StatusChange(a.assertionId, a.subject, Some(SUPERSEDED), Some(c.createdAt), None),
                              Lineage.Provenance(map["candidate_id" := c.candidateId]))
  }

  predicate CarriesOut(p: Planner, op: Operation, item: Item) {
    if item.candidate.claim.EntityClaim? then CreatesEntity(p, op, item) else AttachesClaim(p, op, item)
  }

  /** The guard of an operation: its record is absent, or its identity was never touched. */
  predicate GuardsAgainst(guard: Precondition, op: Operation) {
    match op.payload
    case EntityDump(e) => guard == Precondition(EntityVersion, e.identityId, "0")
    case AssertionDump(a) => guard == Precondition(AssertionAbsent, a.subject, a.assertionId)
    case _ => false
  }

  /* ---------- one item ---------- */

  lemma AttributeCarriesOut(p: Planner, item: Item)
    requires item.candidate.claim.AttributeClaim? && item.resolution.identity.Some?
    ensures var c := item.candidate;
            var r := AttachFor(p, c, item.resolution.identity.value, c.claim.attribute,
                               ContentOf(c, c.claim.value, None, c.claim.period));
            if c.claim.value.Unrenderable? then r == Err(UnstableRecordValue(c.claim.value.typeName))
            else r.Ok? && r.value.Some? && AttachesClaim(p, r.value.value, item)
  {
  }

  lemma RelationCarriesOut(p: Planner, item: Item)
    requires item.candidate.claim.RelationClaim? && item.resolution.identity.Some?
    ensures var c := item.candidate;
            var r := AttachFor(p, c, item.resolution.identity.value, c.claim.relationType,
                               ContentOf(c, Native(Null), c.claim.target, c.claim.period));
            r.Ok? && r.value.Some? && AttachesClaim(p, r.value.value, item)
  {
  }

  /** An item is refused exactly for an unstable value it would write, and has an operation
      exactly where it is planned. */
  lemma OneItem(p: Planner, item: Item)
    ensures var r := OperationOf(p, item);
            if IsPlanned(item) && HasUnstableValue(item)
            then r == Err(UnstableRecordValue(item.candidate.claim.value.typeName))
            else r.Ok? && (r.value.Some? <==> IsPlanned(item)) && (r.value.Some? ==> CarriesOut(p, r.value.value, item))
  {
    if item.resolution.identity.Some? {
      match item.candidate.claim
      case AttributeClaim(_, _, _) => AttributeCarriesOut(p, item);
      case RelationClaim(_, _, _) => RelationCarriesOut(p, item);
      case _ =>
    }
  }

  /* ---------- the plan ---------- */

  lemma {:induction false} FilterSame(items: seq<Item>, p: Item -> bool, q: Item -> bool)
    requires forall item <- items :: p(item) == q(item)
    ensures Filter(items, p) == Filter(items, q)
  {
    if items != [] {
      assert items[|items| - 1] in items && forall item <- items[..|items| - 1] :: item in items;
      FilterSame(items[..|items| - 1], p, q);
    }
  }

  lemma PlannedItems(p: Planner, items: seq<Item>)
    requires PlannedOf(p, items).Ok?
    ensures var planned, wanted := PlannedOf(p, items).value, Filter(items, Wanted());
            && |planned| == |wanted|
            && forall k :: 0 <= k < |wanted| ==>
                 planned[k].item == wanted[k] && CarriesOut(p, planned[k].operation, wanted[k])
  {
    var planned, wanted := PlannedOf(p, items).value, Filter(items, Wanted());
    PlanningKeepsOrder(p, items);
    forall item <- items ensures Asks(p)(item) == Wanted()(item) { OneItem(p, item); }
    FilterSame(items, Asks(p), Wanted());
    assert ItemsOf(planned) == wanted;
    forall k | 0 <= k < |wanted|
      ensures planned[k].item == wanted[k] && CarriesOut(p, planned[k].operation, wanted[k])
    {
      assert ItemsOf(planned)[k] == planned[k].item && planned[k] in planned;
      OneItem(p, planned[k].item);
    }
  }

  /** There is no plan exactly where no item is planned.  Otherwise the plan has one operation
      for every planned item, in input order, which carries that item out, and names its
      candidate. */
  lemma PlanHolds(p: Planner, items: seq<Item>)
    requires PlanOf(p, items).Ok?
    ensures var wanted := Filter(items, Wanted());
            && (PlanOf(p, items).value.None? <==> wanted == [])
            && (wanted != [] ==>
                  var plan := PlanOf(p, items).value.value;
                  && |plan.operations| == |plan.candidateIds| == |wanted|
                  && forall k :: 0 <= k < |wanted| ==>
                       CarriesOut(p, plan.operations[k], wanted[k])
                       && plan.candidateIds[k] == wanted[k].candidate.candidateId)
  {
    PlannedItems(p, items);
  }

  lemma GuardMatches(p: Planner, q: Planned)
    requires CarriesOut(p, q.operation, q.item)
    ensures |GuardOf(q)| == 1 && GuardsAgainst(GuardOf(q)[0], q.operation)
  {
  }

  lemma GuardsMatch(p: Planner, planned: seq<Planned>)
    requires forall k :: 0 <= k < |planned| ==> CarriesOut(p, planned[k].operation, planned[k].item)
    ensures |GuardsOf(planned)| == |planned|
    ensures forall k :: 0 <= k < |planned| ==> GuardsAgainst(GuardsOf(planned)[k], planned[k].operation)
  {
    forall k | 0 <= k < |planned|
      ensures |GuardOf(planned[k])| == 1 && GuardsAgainst(GuardOf(planned[k])[0], planned[k].operation)
    {
      GuardMatches(p, planned[k]);
    }
    GuardsLineUp(planned);
  }

  /** The plan's guards: the snapshot it was planned on, filed under the first planned item's
      graph, and then one guard per operation, in operation order. */
  lemma PlanGuards(p: Planner, items: seq<Item>)
    requires PlanOf(p, items).Ok? && PlanOf(p, items).value.Some?
    ensures var plan := PlanOf(p, items).value.value;
            && Filter(items, Wanted()) != [] && |plan.preconditions| == 1 + |plan.operations|
            && plan.snapshotVersion == p.snapshotVersion && plan.policyVersion == p.policyVersion
            && plan.preconditions[0] ==
               Precondition(SnapshotVersion, Filter(items, Wanted())[0].candidate.graphId, p.snapshotVersion)
            && forall k :: 0 <= k < |plan.operations| ==> GuardsAgainst(plan.preconditions[k + 1], plan.operations[k])
  {
    var plan, planned := PlanOf(p, items).value.value, PlannedOf(p, items).value;
    PlannedItems(p, items);
    GuardsMatch(p, planned);
    assert plan.preconditions[1..] == GuardsOf(planned);
  }

  lemma {:induction false} AllRefIdsHas(planned: seq<Planned>, id: Id)
    ensures id in AllRefIds(planned) <==>
            exists k, r :: 0 <= k < |planned| && r in planned[k].item.candidate.evidence && r.evidenceId == id
  {
    if planned != [] {
      var n := |planned| - 1;
      AllRefIdsHas(planned[..n], id);
      var refs := planned[n].item.candidate.evidence;
      if id in RefIds(refs) {
        var i :| 0 <= i < |refs| && RefIds(refs)[i] == id;
        assert refs[i] in refs && refs[i].evidenceId == id;
      }
      if r :| r in refs && r.evidenceId == id {
        var i :| 0 <= i < |refs| && refs[i] == r;
        assert RefIds(refs)[i] == id;
      }
    }
  }

  /** The plan cites exactly the evidence of the planned items, each piece once. */
  lemma PlanCites(p: Planner, items: seq<Item>, id: Id)
    requires PlanOf(p, items).Ok? && PlanOf(p, items).value.Some?
    ensures var wanted := Filter(items, Wanted());
            id in PlanOf(p, items).value.value.evidenceIds <==>
            exists k, r :: 0 <= k < |wanted| && r in wanted[k].candidate.evidence && r.evidenceId == id
    ensures NoRepeats(PlanOf(p, items).value.value.evidenceIds)
  {
    var planned, wanted := PlannedOf(p, items).value, Filter(items, Wanted());
    PlannedItems(p, items);
    FirstSeenNoRepeats(AllRefIds(planned));
    FirstSeenHas(AllRefIds(planned), id);
    AllRefIdsHas(planned, id);
    if k, r :| 0 <= k < |wanted| && r in wanted[k].candidate.evidence && r.evidenceId == id {
      assert r in planned[k].item.candidate.evidence;
    }
  }

  lemma {:induction false} JoinedIsSeparated(ids: seq<Id>)
    ensures Planning.Joined(ids) == Separated(ids, "|")
  {
    if |ids| > 1 {
      JoinedIsSeparated(ids[1..]);
      SeparatedFirst(ids, "|");
      Regrouped(ids[0], "|", Planning.Joined(ids[1..]));
    }
  }

  /** The plan's id comes from its candidates and the two versions it was planned with. */
  lemma PlanIdIs(p: Planner, items: seq<Item>)
    requires PlanOf(p, items).Ok? && PlanOf(p, items).value.Some?
    ensures var plan := PlanOf(p, items).value.value;
            plan.planId ==
            p.ids.PlanId(Separated(plan.candidateIds, "|") + "@" + plan.snapshotVersion + "#" + plan.policyVersion)
  {
    JoinedIsSeparated(PlanOf(p, items).value.value.candidateIds);
  }

  /** The item would write a value that no seed can hold. */
  predicate Stops(item: Item) { IsPlanned(item) && HasUnstableValue(item) }

  predicate FirstStop(items: seq<Item>, k: nat) {
    k < |items| && Stops(items[k]) && forall i :: 0 <= i < k ==> !Stops(items[i])
  }

  lemma {:induction false} FirstStopWins(p: Planner, items: seq<Item>, k: nat)
    requires FirstStop(items, k)
    ensures PlannedOf(p, items) == Err(UnstableRecordValue(items[k].candidate.claim.value.typeName))
  {
    var n := |items| - 1;
    if k < n {
      FirstStopWins(p, items[..n], k);
    } else {
      OneItem(p, items[n]);
      PlanningKeepsOrder(p, items[..n]);
      forall item <- items[..n] ensures OperationOf(p, item).Ok? { OneItem(p, item); }
    }
  }

  /** Planning is refused exactly where a planned item's value is one no seed can hold, and then
      for the first such value. */
  lemma PlanErrIff(p: Planner, items: seq<Item>)
    ensures PlanOf(p, items).Ok? <==> forall item <- items :: !Stops(item)
    ensures forall k :: 0 <= k < |items| && FirstStop(items, k) ==>
              PlanOf(p, items) == Err(UnstableRecordValue(items[k].candidate.claim.value.typeName))
  {
    PlanningKeepsOrder(p, items);
    forall item <- items ensures OperationOf(p, item).Ok? <==> !Stops(item) { OneItem(p, item); }
    forall k | 0 <= k < |items| && FirstStop(items, k)
      ensures PlanOf(p, items) == Err(UnstableRecordValue(items[k].candidate.claim.value.typeName))
    {
      FirstStopWins(p, items, k);
    }
  }
}
