/** The durable payload laid out field after field, and that this is what the encoder writes. */
module Layout {
  import opened Basics
  import opened Model
  import opened Encoding
  import opened Identity
  import opened Scopes
  import opened Codec
  import opened DurableCodec
  import opened Image
  import opened Sha256
  import opened Protocol

  // ---- fields ------------------------------------------------------------

  function Word(v: U64): Bytes { LittleBytes(v, 8) }

  function Name(v: Id): Bytes { BigBytes(v, 16) }

  function Text(t: Bytes): Bytes { LittleBytes(Low32(|t|), 4) + t }

  function Count(n: nat): Bytes { LittleBytes(Low32(n), 4) }

  function Joined<T>(xs: seq<T>, bytes: T -> Bytes): Bytes {
    if xs == [] then [] else bytes(xs[0]) + Joined(xs[1..], bytes)
  }

  function Listed<T>(xs: seq<T>, bytes: T -> Bytes): Bytes {
    Count(|xs|) + Joined(xs, bytes)
  }

  /** The enumerations in the order of their codes. */
  const REASONS: seq<FenceReason> := [
    ProcessLoss, Reincarnation, CoordinatorEpochAdvance, AdministrativeRevoke, SessionProtocolViolation, ExplicitOperatorFence,
    AuthorityReplaced, ShutdownFence]
  const CAUSES: seq<TransitionCause> := [CoordinatorStart, CoordinatorRestart, ExplicitOperatorAdvance, DurableRecovery]
  const POLICIES: seq<IncarnationPolicy> := [SingleIncarnation, MultiIncarnation]
  const KINDS: seq<ScopeKind> := [Fabric, Site, Domain, EntityClass, Entity, OperationFamily]
  /** Numbered from one. */
  const OPERATIONS: seq<OperationKind> := [RegisterKind, GrantKind, FenceKind, RevokeKind, AdvanceKind, RetireKind]

  lemma CodesInOrder(r: FenceReason, c: TransitionCause, p: IncarnationPolicy, k: ScopeKind, o: OperationKind)
    ensures ReasonCode(r) < |REASONS| && REASONS[ReasonCode(r)] == r
    ensures CauseCode(c) < |CAUSES| && CAUSES[CauseCode(c)] == c
    ensures PolicyCode(p) < |POLICIES| && POLICIES[PolicyCode(p)] == p
    ensures KindCode(k) < |KINDS| && KINDS[KindCode(k)] == k
    ensures 1 <= OperationCode(o) <= |OPERATIONS| && OPERATIONS[OperationCode(o) - 1] == o
  {
  }

  /** One bit each for three booleans. */
  function Bits(first: bool, second: bool, third: bool): Byte {
    (if first then 0x01 else 0) + (if second then 0x02 else 0) + (if third then 0x04 else 0)
  }

  // ---- records -----------------------------------------------------------

  function AttemptBytes(r: AttemptRecord): Bytes {
    Name(r.attempt) + [OperationCode(r.operation)] + BigBytes(r.semantic, 32) + LittleBytes(r.outcome, 2)
    + Word(r.auxiliary) + Word(r.auxiliaryHigh) + Name(r.auxiliaryId)
  }

  function IncarnationBytes(a: ActiveIncarnation): Bytes {
    Name(a.boot) + Word(a.sequence) + Word(a.registeredAt)
  }

  function ScopeBytes(s: Scope): Bytes {
    [KindCode(s.kind)] + Text(s.subject)
  }

  /** A participant: its name and generations, what it runs, and its lists. */
  function ParticipantBytes(p: Participant): Bytes {
    StandingBytes(p) + RunningBytes(p) + ListsBytes(p)
  }

  function StandingBytes(p: Participant): Bytes {
    Text(p.id.text) + Word(p.registrationGeneration) + Word(p.fenceGeneration) + Word(p.incarnationFloor)
  }

  function RunningBytes(p: Participant): Bytes {
    [PolicyCode(p.policy)] + [Bits(p.retired, p.revalidationRequired, p.hasActiveBoot)]
    + Name(p.activeBoot) + Word(p.activeIncarnation) + Word(p.nextIncarnation)
  }

  function ListsBytes(p: Participant): Bytes {
    Listed(p.extras, IncarnationBytes) + Listed(p.scopes, ScopeBytes)
    + Word(p.acceptedRegistrations) + Word(p.replayHits)
    + Listed(p.fencedBoots, Name) + Listed(p.idempotency, AttemptBytes)
  }

  function FenceBytes(f: FenceRecord): Bytes {
    Name(f.boot) + Text(f.participant.text) + [ReasonCode(f.reason)] + Word(f.generation) + Word(f.epoch) + Word(f.incarnation)
    + Text(f.note)
  }

  /** A grant: what it covers, and what has become of it. */
  function GrantBytes(g: Grant): Bytes {
    CoverageBytes(g) + FateBytes(g)
  }

  function CoverageBytes(g: Grant): Bytes {
    Name(g.id) + Word(g.epoch) + Text(g.participant.text) + Name(g.boot) + Word(g.incarnation) + Listed(g.scopes, ScopeBytes)
  }

  function FateBytes(g: Grant): Bytes {
    OriginBytes(g) + (Word(g.revokedAtEpoch) + Text(g.provenance))
  }

  function OriginBytes(g: Grant): Bytes {
    Word(g.generation) + [Bits(g.parent.Some?, g.delegatorBoot.Some?, g.revoked)]
    + Name(OrNil(g.parent)) + Name(OrNil(g.delegatorBoot))
  }

  function TransitionBytes(t: Transition): Bytes {
    Name(t.id) + Word(t.fromEpoch) + Word(t.toEpoch) + [CauseCode(t.cause)] + Name(t.coordinatorBoot) + Word(t.generation)
    + Text(t.provenance)
  }

  function PayloadBytes(d: DurableState): Bytes {
    CountersBytes(d) + Listed(d.participants, ParticipantBytes) + Listed(d.fences, FenceBytes) + Listed(d.grants, GrantBytes)
    + Listed(d.transitions, TransitionBytes) + Listed(d.control, AttemptBytes)
  }

  function CountersBytes(d: DurableState): Bytes {
    Word(d.epoch) + Name(d.coordinatorBoot) + Word(d.generation) + Word(d.registrationFloor) + Word(d.fenceFloor)
  }

  // ---- what is written in front of a tail ---------------------------------

  lemma Fields(v: U64, n: Id, t: Bytes, tail: Bytes)
    ensures PutU64(v, tail) == Word(v) + tail && PutId(n, tail) == Name(n) + tail && PutText(t, tail) == Text(t) + tail
  {
    hide LittleBytes, BigBytes;
    assert Count(|t|) + (t + tail) == Text(t) + tail;
  }

  lemma FieldsAll()
    ensures forall v: U64, tail: Bytes :: PutU64(v, tail) == Word(v) + tail
    ensures forall n: Id, tail: Bytes :: PutId(n, tail) == Name(n) + tail
    ensures forall t: Bytes, tail: Bytes :: PutText(t, tail) == Text(t) + tail
    ensures forall v: Byte, tail: Bytes :: PutU8(v, tail) == [v] + tail
    ensures forall v: U16, tail: Bytes :: PutU16(v, tail) == LittleBytes(v, 2) + tail
    ensures forall v: Digest, tail: Bytes :: PutDigest(v, tail) == BigBytes(v, 32) + tail
  {
    hide PutU64, PutId, PutText, Word, Name, Text, LittleBytes, BigBytes;
    forall v: U64, tail: Bytes
      ensures PutU64(v, tail) == Word(v) + tail
    {
      Fields(v, NIL, [], tail);
    }
    forall n: Id, tail: Bytes
      ensures PutId(n, tail) == Name(n) + tail
    {
      Fields(0, n, [], tail);
    }
    forall t: Bytes, tail: Bytes
      ensures PutText(t, tail) == Text(t) + tail
    {
      Fields(0, NIL, t, tail);
    }
  }

  lemma Regroups()
    ensures forall x: Bytes, y: Bytes, z: Bytes {:trigger (x + y) + z} :: (x + y) + z == x + (y + z)
  {
  }

  lemma {:induction false} ListIs<T(!new)>(xs: seq<T>, tail: Bytes, put: (T, Bytes) -> Bytes, bytes: T -> Bytes)
    requires forall x, t: Bytes :: put(x, t) == bytes(x) + t
    ensures PutList(xs, tail, put) == Joined(xs, bytes) + tail
  {
    if xs != [] {
      ListIs(xs[1..], tail, put, bytes);
      assert bytes(xs[0]) + (Joined(xs[1..], bytes) + tail) == Joined(xs, bytes) + tail;
    }
  }

  lemma CountedIs<T(!new)>(xs: seq<T>, tail: Bytes, put: (T, Bytes) -> Bytes, bytes: T -> Bytes)
    requires forall x, t: Bytes :: put(x, t) == bytes(x) + t
    ensures PutCounted(xs, tail, put) == Listed(xs, bytes) + tail
  {
    hide Low32, LittleBytes, Joined;
    ListIs(xs, tail, put, bytes);
    assert Count(|xs|) + (Joined(xs, bytes) + tail) == Listed(xs, bytes) + tail;
  }

  // ---- the records ---------------------------------------------------------

  lemma AttemptLayout(r: AttemptRecord, tail: Bytes)
    ensures PutAttempt(r, tail) == AttemptBytes(r) + tail
  {
    hide PutU64, PutId, PutU8, PutU16, PutDigest, Word, Name, LittleBytes, BigBytes, OperationCode;
    FieldsAll();
    Regroups();
  }

  lemma IncarnationLayout(a: ActiveIncarnation, tail: Bytes)
    ensures PutIncarnation(a, tail) == IncarnationBytes(a) + tail
  {
    hide PutU64, PutId, Word, Name;
    FieldsAll();
    Regroups();
  }

  lemma FenceLayout(f: FenceRecord, tail: Bytes)
    ensures PutFence(f, tail) == FenceBytes(f) + tail
  {
    hide PutU64, PutId, PutU8, PutText, Word, Name, Text, ReasonCode;
    FieldsAll();
    Regroups();
  }

  lemma TransitionLayout(t: Transition, tail: Bytes)
    ensures PutTransition(t, tail) == TransitionBytes(t) + tail
  {
    hide PutU64, PutId, PutU8, PutText, Word, Name, Text, CauseCode;
    FieldsAll();
    Regroups();
  }

  lemma {:induction false} ScopeListLayout(scopes: seq<Scope>, tail: Bytes)
    ensures PutScopeList(scopes, tail) == Joined(scopes, ScopeBytes) + tail
  {
    hide PutU8, PutText, Text, KindCode;
    FieldsAll();
    Regroups();
    if scopes != [] {
      ScopeListLayout(scopes[1..], tail);
    }
  }

  lemma ScopesLayout(scopes: seq<Scope>, tail: Bytes)
    ensures PutScopes(scopes, tail) == Listed(scopes, ScopeBytes) + tail
  {
    hide Joined, PutScopeList, LittleBytes, Low32;
    ScopeListLayout(scopes, tail);
    Regroups();
  }

  lemma OriginLayout(g: Grant, rest: Bytes)
    ensures PutU64(g.generation, PutU8(FlagsCode(Flags(g.parent.Some?, g.delegatorBoot.Some?, g.revoked)),
              PutId(OrNil(g.parent), PutId(OrNil(g.delegatorBoot), rest)))) == OriginBytes(g) + rest
  {
    hide PutU64, PutId, PutU8, Word, Name, OrNil;
    FieldsAll();
    Regroups();
  }

  lemma FateLayout(g: Grant, tail: Bytes)
    ensures PutGrantTail(g, tail) == FateBytes(g) + tail
  {
    hide PutU64, PutId, PutU8, PutText, Word, Text, OriginBytes, OrNil, FlagsCode;
    FieldsAll();
    var rest := PutU64(g.revokedAtEpoch, PutText(g.provenance, tail));
    OriginLayout(g, rest);
    Regroups();
  }

  lemma CoverageLayout(g: Grant, fate: Bytes)
    ensures PutId(g.id, PutU64(g.epoch, PutText(g.participant.text, PutId(g.boot, PutU64(g.incarnation, PutScopes(g.scopes, fate))))))
            == CoverageBytes(g) + fate
  {
    hide PutU64, PutId, PutText, PutScopes, Word, Name, Text, Listed;
    FieldsAll();
    Regroups();
    ScopesLayout(g.scopes, fate);
  }

  lemma GrantLayout(g: Grant, tail: Bytes)
    ensures PutGrant(g, tail) == GrantBytes(g) + tail
  {
    hide PutU64, PutId, PutText, PutScopes, PutGrantTail, CoverageBytes, FateBytes;
    FateLayout(g, tail);
    CoverageLayout(g, PutGrantTail(g, tail));
    Regroups();
  }

  lemma StandingLayout(p: Participant, rest: Bytes)
    ensures PutText(p.id.text, PutU64(p.registrationGeneration, PutU64(p.fenceGeneration, PutU64(p.incarnationFloor, rest))))
            == StandingBytes(p) + rest
  {
    hide PutU64, PutText, Word, Text;
    FieldsAll();
    Regroups();
  }

  lemma RunningLayout(p: Participant, rest: Bytes)
    ensures PutU8(PolicyCode(p.policy), PutU8(FlagsCode(Flags(p.retired, p.revalidationRequired, p.hasActiveBoot)),
              PutId(p.activeBoot, PutU64(p.activeIncarnation, PutU64(p.nextIncarnation, rest)))))
            == RunningBytes(p) + rest
  {
    hide PutU64, PutId, PutU8, Word, Name, PolicyCode;
    FieldsAll();
    Regroups();
  }

  lemma HeadLayout(p: Participant, rest: Bytes)
    ensures PutHead(HeadOf(p), rest) == StandingBytes(p) + (RunningBytes(p) + rest)
  {
    hide PutU64, PutId, PutU8, PutText, StandingBytes, RunningBytes, PolicyCode, FlagsCode;
    RunningLayout(p, rest);
    StandingLayout(p, RunningBytes(p) + rest);
  }

  lemma CountedLayouts()
    ensures forall xs: seq<ActiveIncarnation>, t: Bytes :: PutCounted(xs, t, PutIncarnation) == Listed(xs, IncarnationBytes) + t
    ensures forall xs: seq<Id>, t: Bytes :: PutCounted(xs, t, PutId) == Listed(xs, Name) + t
    ensures forall xs: seq<AttemptRecord>, t: Bytes :: PutCounted(xs, t, PutAttempt) == Listed(xs, AttemptBytes) + t
  {
    hide PutCounted, Listed, PutIncarnation, PutId, PutAttempt, IncarnationBytes, Name, AttemptBytes;
    FieldsAll();
    forall a: ActiveIncarnation, t: Bytes
      ensures PutIncarnation(a, t) == IncarnationBytes(a) + t
    {
      IncarnationLayout(a, t);
    }
    forall r: AttemptRecord, t: Bytes
      ensures PutAttempt(r, t) == AttemptBytes(r) + t
    {
      AttemptLayout(r, t);
    }
    forall xs: seq<ActiveIncarnation>, t: Bytes
      ensures PutCounted(xs, t, PutIncarnation) == Listed(xs, IncarnationBytes) + t
    {
      CountedIs(xs, t, PutIncarnation, IncarnationBytes);
    }
    forall xs: seq<Id>, t: Bytes
      ensures PutCounted(xs, t, PutId) == Listed(xs, Name) + t
    {
      CountedIs(xs, t, PutId, Name);
    }
    forall xs: seq<AttemptRecord>, t: Bytes
      ensures PutCounted(xs, t, PutAttempt) == Listed(xs, AttemptBytes) + t
    {
      CountedIs(xs, t, PutAttempt, AttemptBytes);
    }
  }

  lemma ListsLayout(p: Participant, tail: Bytes)
    ensures PutCounted(p.extras, PutScopes(p.scopes, PutU64(p.acceptedRegistrations, PutU64(p.replayHits,
              PutCounted(p.fencedBoots, PutCounted(p.idempotency, tail, PutAttempt), PutId)))), PutIncarnation)
            == ListsBytes(p) + tail
  {
    hide PutU64, PutScopes, PutCounted, Word, Name, Listed, PutIncarnation, PutId, PutAttempt;
    FieldsAll();
    CountedLayouts();
    Regroups();
    ScopesLayout(p.scopes, PutU64(p.acceptedRegistrations, PutU64(p.replayHits,
      PutCounted(p.fencedBoots, PutCounted(p.idempotency, tail, PutAttempt), PutId))));
  }

  lemma ParticipantLayout(p: Participant, tail: Bytes)
    ensures PutParticipant(p, tail) == ParticipantBytes(p) + tail
  {
    hide PutU64, PutHead, HeadOf, PutScopes, PutCounted, PutIncarnation, PutId, PutAttempt, StandingBytes, RunningBytes, ListsBytes;
    ListsLayout(p, tail);
    HeadLayout(p, ListsBytes(p) + tail);
    Regroups();
  }

  lemma CountersLayout(d: DurableState, rest: Bytes)
    ensures PutCounters(CountersOf(d), rest) == CountersBytes(d) + rest
  {
    hide PutU64, PutId, Word, Name, GetCounters;
    FieldsAll();
    Regroups();
  }

  lemma HistoryLayout(d: DurableState)
    ensures PutTransitions(d) == Listed(d.transitions, TransitionBytes) + Listed(d.control, AttemptBytes)
  {
    hide PutCounted, Listed, PutTransition, PutAttempt, TransitionBytes, AttemptBytes;
    forall x: Transition, t: Bytes
      ensures PutTransition(x, t) == TransitionBytes(x) + t
    {
      TransitionLayout(x, t);
    }
    forall r: AttemptRecord, t: Bytes
      ensures PutAttempt(r, t) == AttemptBytes(r) + t
    {
      AttemptLayout(r, t);
    }
    CountedIs(d.transitions, PutControl(d), PutTransition, TransitionBytes);
    CountedIs(d.control, [], PutAttempt, AttemptBytes);
    assert Listed(d.control, AttemptBytes) + [] == Listed(d.control, AttemptBytes);
  }

  lemma AuthorityLayout(d: DurableState)
    ensures PutParticipants(d) ==
            Listed(d.participants, ParticipantBytes) + (Listed(d.fences, FenceBytes) + (Listed(d.grants, GrantBytes) + PutTransitions(d)))
  {
    hide PutCounted, PutTransitions, Listed, PutParticipant, PutFence, PutGrant, ParticipantBytes, FenceBytes, GrantBytes;
    forall p: Participant, t: Bytes
      ensures PutParticipant(p, t) == ParticipantBytes(p) + t
    {
      ParticipantLayout(p, t);
    }
    forall f: FenceRecord, t: Bytes
      ensures PutFence(f, t) == FenceBytes(f) + t
    {
      FenceLayout(f, t);
    }
    forall g: Grant, t: Bytes
      ensures PutGrant(g, t) == GrantBytes(g) + t
    {
      GrantLayout(g, t);
    }
    CountedIs(d.participants, PutFences(d), PutParticipant, ParticipantBytes);
    CountedIs(d.fences, PutGrants(d), PutFence, FenceBytes);
    CountedIs(d.grants, PutTransitions(d), PutGrant, GrantBytes);
  }

  /** The payload is the counters, then the five lists, every record in the order given above. */
  lemma PayloadLayout(d: DurableState)
    ensures EncodePayload(d) == PayloadBytes(d)
  {
    hide PutCounters, PutParticipants, PutTransitions, CountersOf, CountersBytes, Listed, ParticipantBytes, FenceBytes, GrantBytes, TransitionBytes, AttemptBytes;
    HistoryLayout(d);
    AuthorityLayout(d);
    CountersLayout(d, PutParticipants(d));
    Regroups();
  }

  // ---- the wire ------------------------------------------------------------

  /** The four letters "FEP1", last first; the protocol version; no flags. */
  const LETTERS: Bytes := [0x31, 0x50, 0x45, 0x46]
  const VERSION_ONE: Bytes := [1, 0]
  const NO_FLAGS: Bytes := [0, 0]

  /** The header of a frame up to its digest. */
  function FieldsBytes(f: Frame): Bytes {
    LETTERS + VERSION_ONE + LittleBytes(f.kind, 2) + NO_FLAGS + Count(|f.payload|) + Word(f.sequence) + Word(f.epoch) + Name(f.requestId)
  }

  /** A frame is these fields, the digest of them and of the payload, and the payload. */
  lemma FrameLayout(f: Frame, l: WireLimits)
    requires EncodeFrame(f, l).Ok?
    ensures var b := EncodeFrame(f, l).value;
            var fields := FieldsBytes(f);
            |fields| == 46 && b == fields + Hash(fields + f.payload) + f.payload
  {
    hide PutU64, PutId, Word, Name, Hash, Low32;
    FieldsAll();
    Magic();
    Regroups();
    var header := PutFrameFields(f, |f.payload|, []);
    FrameFieldsLayout(f, |f.payload|);
  }

  lemma Magic()
    ensures LittleBytes(FRAME_MAGIC, 4) == LETTERS && LittleBytes(WIRE_VERSION, 2) == VERSION_ONE && LittleBytes(0, 2) == NO_FLAGS
  {
    FourDigits(FRAME_MAGIC);
  }

  lemma FrameFieldsLayout(f: Frame, n: U32)
    ensures PutFrameFields(f, n, []) ==
            LittleBytes(FRAME_MAGIC, 4) + LittleBytes(WIRE_VERSION, 2) + LittleBytes(f.kind, 2) + LittleBytes(0, 2) + LittleBytes(n, 4)
            + Word(f.sequence) + Word(f.epoch) + Name(f.requestId)
  {
    hide PutU64, PutId, Word, Name, LittleBytes;
    FieldsAll();
    Regroups();
    assert Name(f.requestId) + [] == Name(f.requestId);
  }

  /** A registration request: attempt, epoch, participant, boot, scopes, policy, the generation expected behind a
      presence byte, provenance, session. */
  lemma RegisterLayout(w: WireRequest)
    requires |w.request.participant.text| < 0x1_0000_0000 && |w.request.provenance| < 0x1_0000_0000
    requires |w.request.scopes| < 0x1_0000_0000 && forall s :: s in w.request.scopes ==> |s.subject| < 0x1_0000_0000
    ensures var q := w.request;
            EncodeRegister(w) == Name(q.attempt) + Word(q.expectedEpoch) + Text(q.participant.text) + Name(q.boot)
                                 + Listed(q.scopes, ScopeBytes) + BackBytes(q, w.session)
  {
    hide PutU64, PutId, PutText, PutScopes, PutBack, BackBytes, Word, Name, Text, Listed;
    FieldsAll();
    Regroups();
    BackLayout(w.request, w.session);
    ScopesLayout(w.request.scopes, PutBack(w.request, w.session));
  }

  function BackBytes(q: RegisterRequest, session: Id): Bytes {
    [PolicyCode(q.policy)] + (if q.expectedGeneration.Some? then [1] + Word(q.expectedGeneration.value) else [0] + Word(0))
    + Text(q.provenance) + Name(session)
  }

  lemma BackLayout(q: RegisterRequest, session: Id)
    requires |q.provenance| < 0x1_0000_0000
    ensures PutBack(q, session) == BackBytes(q, session)
  {
    hide PutU64, PutId, PutU8, PutText, Word, Name, Text, PolicyCode;
    FieldsAll();
    Regroups();
    assert Name(session) + [] == Name(session);
  }
}
