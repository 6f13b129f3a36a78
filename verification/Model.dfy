/** The durable records of the authority engine and the requests it answers. */
module Model {
  import opened Basics

  /** Structural ceilings of the durable representation, on every record count and on scope sets. */
  const MAX_RECORDS: nat := 4 * 1024 * 1024
  const MAX_SCOPES: nat := 64

  datatype ParticipantId = ParticipantId(text: Bytes)

  datatype IncarnationPolicy = SingleIncarnation | MultiIncarnation

  datatype ReplacementPolicy = RequireExplicitFence | ReplaceIncumbent

  datatype ScopeKind = Fabric | Site | Domain | EntityClass | Entity | OperationFamily

  datatype Scope = Scope(kind: ScopeKind, subject: Bytes)

  datatype FenceReason =
    | ProcessLoss | Reincarnation | CoordinatorEpochAdvance | AdministrativeRevoke
    | SessionProtocolViolation | ExplicitOperatorFence | AuthorityReplaced | ShutdownFence

  datatype TransitionCause =
    | CoordinatorStart | CoordinatorRestart | ExplicitOperatorAdvance | DurableRecovery

  datatype OperationKind =
    | RegisterKind | GrantKind | FenceKind | RevokeKind | AdvanceKind | RetireKind

  datatype ActiveIncarnation = ActiveIncarnation(boot: Id, sequence: U64, registeredAt: U64)

  datatype AttemptRecord = AttemptRecord(
    attempt: Id, operation: OperationKind, semantic: Digest, outcome: U16,
    auxiliary: U64, auxiliaryHigh: U64, auxiliaryId: Id)

  datatype Participant = Participant(
    id: ParticipantId,
    registrationGeneration: U64,
    fenceGeneration: U64,
    incarnationFloor: U64,
    policy: IncarnationPolicy,
    retired: bool,
    revalidationRequired: bool,
    hasActiveBoot: bool,
    activeBoot: Id,
    activeIncarnation: U64,
    nextIncarnation: U64,
    extras: seq<ActiveIncarnation>,
    scopes: seq<Scope>,
    acceptedRegistrations: U64,
    replayHits: U64,
    fencedBoots: seq<Id>,
    idempotency: seq<AttemptRecord>)

  datatype FenceRecord = FenceRecord(
    boot: Id, participant: ParticipantId, reason: FenceReason, generation: U64,
    epoch: U64, incarnation: U64, note: Bytes)

  datatype Grant = Grant(
    id: Id, epoch: U64, participant: ParticipantId, boot: Id, incarnation: U64,
    scopes: seq<Scope>, generation: U64, parent: Option<Id>, delegatorBoot: Option<Id>,
    revoked: bool, revokedAtEpoch: U64, provenance: Bytes)

  datatype Transition = Transition(
    id: Id, fromEpoch: U64, toEpoch: U64, cause: TransitionCause, coordinatorBoot: Id,
    generation: U64, provenance: Bytes)

  /** The complete durable state, with participants in their vector. */
  datatype DurableState = DurableState(
    epoch: U64, coordinatorBoot: Id, generation: U64, registrationFloor: U64, fenceFloor: U64,
    participants: seq<Participant>,
    fences: seq<FenceRecord>,
    grants: seq<Grant>,
    transitions: seq<Transition>,
    control: seq<AttemptRecord>)

  datatype Limits = Limits(
    maxParticipants: nat, maxActiveWorkers: nat, maxRecentFences: nat, maxGrants: nat,
    maxScopesPerGrant: nat, maxTransitionHistory: nat, maxStringSize: nat, maxSessions: nat,
    maxIdempotencyRecords: nat, maxFencedBoots: nat)

  datatype RegisterRequest = RegisterRequest(
    attempt: Id, expectedEpoch: U64, participant: ParticipantId, boot: Id, scopes: seq<Scope>,
    policy: IncarnationPolicy, expectedGeneration: Option<U64>, provenance: Bytes)

  datatype FenceRequest = FenceRequest(
    attempt: Id, expectedEpoch: U64, participant: ParticipantId, boot: Id, reason: FenceReason, note: Bytes)

  datatype GrantRequest = GrantRequest(
    attempt: Id, expectedEpoch: U64, participant: ParticipantId, boot: Id, incarnation: U64,
    scopes: seq<Scope>, parent: Option<Id>, provenance: Bytes)

  datatype RevokeRequest = RevokeRequest(
    attempt: Id, expectedEpoch: U64, grant: Id, reason: FenceReason, note: Bytes)

  datatype RetireRequest = RetireRequest(
    attempt: Id, expectedEpoch: U64, participant: ParticipantId, note: Bytes)

  datatype AdvanceRequest = AdvanceRequest(
    attempt: Id, expectedEpoch: U64, cause: TransitionCause, provenance: Bytes)

  /** Any mutating request; the argument of the semantic digest. */
  datatype Request =
    | Registering(register: RegisterRequest)
    | Granting(grant: GrantRequest)
    | Fencing(fence: FenceRequest)
    | Revoking(revoke: RevokeRequest)
    | Advancing(advance: AdvanceRequest)
    | Retiring(retire: RetireRequest)

  /** Runtime options. `digest` is the semantic digest of a request; nothing proved
      about the engine depends on which function it is. */
  datatype Options = Options(
    limits: Limits, provenance: Bytes, replacement: ReplacementPolicy, allowMulti: bool,
    registrable: ScopeKind -> bool, fenceOnSessionLoss: bool, digest: Request -> Digest)

  datatype Token = Token(epoch: U64, participant: ParticipantId, boot: Id, incarnation: U64)

  datatype ValidateRequest = ValidateRequest(
    token: Token, scope: Scope, expectedGeneration: Option<U64>, grant: Option<Id>)

  /** Free-form text: printable ASCII and tab only, within a length bound. */
  predicate IsBoundedText(text: Bytes, maxLength: nat) {
    |text| <= maxLength && forall i :: 0 <= i < |text| ==> (0x20 <= text[i] <= 0x7E || text[i] == 0x09)
  }
}
