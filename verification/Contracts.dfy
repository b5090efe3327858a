/** The records that plans, the executor and the graph store exchange. */
module Contracts {
  import opened Wrappers
  import opened CanonicalJson
  import opened Records

  type Id = string

  type Instant = int

  datatype Status = ACTIVE | SUPERSEDED | REVOKED

  /** One record of a fact.  `epoch` is the commit that attached it; the store stamps it. */
  datatype Assertion = Assertion(
    assertionId: Id,
    subject: Id,
    attribute: string,
    content: Content,
    status: Status,
    recordedAt: Instant,
    supersededAt: Option<Instant>,
    supersededBy: Option<Id>,
    sourceCandidates: seq<Id>,
    authority: string,
    traceId: string,
    epoch: nat)

  datatype Entity = Entity(
    identityId: Id,
    entityType: string,
    displayName: string,
    status: Status,
    createdAt: Instant,
    epoch: nat)

  datatype OpType =
    | CREATE_IDENTITY
    | ATTACH_ASSERTION
    | RETRACT_ASSERTION
    | REVOKE_IDENTITY
    | RESTORE_IDENTITY
    | MERGE_IDENTITIES
    | SPLIT_IDENTITY
    | REASSIGN_ASSERTION
    | PROMOTE_ONTOLOGY_TERM

  /** An operation's payload dictionary, by the shapes the producers emit.  A status change
      may lack the two fields it is defined by; `Fields` is any other dictionary. */
  datatype Payload =
    | AssertionDump(assertion: Assertion)
    | EntityDump(entity: Entity)
    | IdentityRef(identityId: Id, reason: string)
    | StatusChange(
        assertionId: Id,
        subject: Id,
        newStatus: Option<Status>,
        supersededAt: Option<Instant>,
        supersededBy: Option<Id>)
    | Fields(fields: map<string, string>)

  /** A JSON-mode dump of a record without the epoch, which the store stamps: a date becomes
      its text. */
  function Dumped(a: Assertion): Assertion {
    a.(epoch := 0, content := a.content.(objectValue := JsonMode(a.content.objectValue)))
  }

  function JsonMode(v: ObjectValue): ObjectValue {
    if v.Temporal? then Native(Str(v.iso)) else v
  }

  /** An operation's `reversal_data`: the inverse payload under its key, a malformed value
      under that key, or no such key at all (`whole` is then the entire dictionary).
      A compensating operation also records what it undoes. */
  datatype Reversal =
    | Inverse(payload: Payload, lineage: Lineage)
    | MalformedInverse
    | Legacy(whole: Payload)

  datatype Lineage =
    | Provenance(fields: map<string, string>)
    | Compensates(operationId: Id, originalType: OpType, originalPayload: Payload)

  datatype Operation = Operation(operationId: Id, opType: OpType, payload: Payload, reversal: Reversal)

  datatype Kind = SnapshotVersion | EntityVersion | AssertionAbsent | OtherKind(name: string)

  datatype Precondition = Precondition(kind: Kind, subject: string, expected: string)

  datatype Plan = Plan(
    planId: Id,
    candidateIds: seq<Id>,
    snapshotVersion: string,
    operations: seq<Operation>,
    preconditions: seq<Precondition>,
    evidenceIds: seq<Id>,
    policyVersion: string)
  {
    /** The contract requires a plan to name at least one candidate. */
    predicate WellFormed() { candidateIds != [] }
  }

  /** The fact a record belongs to. */
  function FactOf(digest: string -> string, a: Assertion): string { FactKey(digest, a.subject, a.attribute) }

  /** The seed a record's own content gives. */
  function SeedOf(digest: string -> string, a: Assertion): Result<string, SeedError> {
    RecordSeed(FactOf(digest, a), a.content)
  }
}
