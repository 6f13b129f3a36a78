/** The records of a durable payload and the payload itself: decoding gives back every encoded
    state, exactly as far as the decoder's size check on transitions allows. */
module DurableCodec {
  import opened Basics
  import opened Model
  import opened Encoding
  import opened Identity
  import opened Scopes
  import opened Codec

  // ---- attempts ----------------------------------------------------------

  const ATTEMPT_SIZE: nat := 83

  function GetAttempt(b: Bytes): Read<AttemptRecord> {
    var attempt :- GetId(b);
    var operation :- GetOperation(attempt.rest);
    var semantic :- GetDigest(operation.rest);
    var outcome :- GetU16(semantic.rest);
    var auxiliary :- GetU64(outcome.rest);
    var high :- GetU64(auxiliary.rest);
    var id :- GetId(high.rest);
    Ok(Parsed(AttemptRecord(attempt.value, operation.value, semantic.value, outcome.value, auxiliary.value, high.value, id.value),
              id.rest))
  }

  function PutAttempt(r: AttemptRecord, tail: Bytes): (b: Bytes)
    ensures GetAttempt(b) == Ok(Parsed(r, tail)) && |b| == ATTEMPT_SIZE + |tail|
  {
    hide GetId, PutId, GetU64, PutU64, GetU8, PutU8, GetU16, PutU16, GetDigest, PutDigest;
    PutId(r.attempt, PutU8(OperationCode(r.operation), PutDigest(r.semantic, PutU16(r.outcome,
      PutU64(r.auxiliary, PutU64(r.auxiliaryHigh, PutId(r.auxiliaryId, tail)))))))
  }

  // ---- live incarnations -------------------------------------------------

  function GetIncarnation(b: Bytes): Read<ActiveIncarnation> {
    var boot :- GetId(b);
    var sequence :- GetU64(boot.rest);
    var registered :- GetU64(sequence.rest);
    Ok(Parsed(ActiveIncarnation(boot.value, sequence.value, registered.value), registered.rest))
  }

  function PutIncarnation(a: ActiveIncarnation, tail: Bytes): (b: Bytes)
    ensures GetIncarnation(b) == Ok(Parsed(a, tail)) && |b| == 32 + |tail|
  {
    hide GetId, PutId, GetU64, PutU64;
    PutId(a.boot, PutU64(a.sequence, PutU64(a.registeredAt, tail)))
  }

  // ---- participants ------------------------------------------------------

  /** The fields of a participant before its lists. */
  datatype Head = Head(
    id: ParticipantId, registrationGeneration: U64, fenceGeneration: U64, incarnationFloor: U64, policy: IncarnationPolicy,
    flags: Flags, activeBoot: Id, activeIncarnation: U64, nextIncarnation: U64)

  function HeadOf(p: Participant): Head {
    Head(p.id, p.registrationGeneration, p.fenceGeneration, p.incarnationFloor, p.policy,
         Flags(p.retired, p.revalidationRequired, p.hasActiveBoot), p.activeBoot, p.activeIncarnation, p.nextIncarnation)
  }

  function GetHead(b: Bytes): Read<Head> {
    var id :- GetParticipantId(b, MAX_TEXT);
    var registration :- GetU64(id.rest);
    var fence :- GetU64(registration.rest);
    var floor :- GetU64(fence.rest);
    var policy :- GetPolicy(floor.rest);
    var flags :- GetFlags(policy.rest);
    var boot :- GetId(flags.rest);
    var incarnation :- GetU64(boot.rest);
    var next :- GetU64(incarnation.rest);
    Ok(Parsed(Head(id.value, registration.value, fence.value, floor.value, policy.value, flags.value, boot.value,
                   incarnation.value, next.value), next.rest))
  }

  function PutHead(h: Head, tail: Bytes): (b: Bytes)
    ensures IdFits(h.id) ==> GetHead(b) == Ok(Parsed(h, tail)) && |b| >= 63 + |tail|
  {
    hide GetId, PutId, GetU64, PutU64, GetText, PutText, GetU8, PutU8;
    PutText(h.id.text, PutU64(h.registrationGeneration, PutU64(h.fenceGeneration, PutU64(h.incarnationFloor,
      PutU8(PolicyCode(h.policy), PutU8(FlagsCode(h.flags), PutId(h.activeBoot,
        PutU64(h.activeIncarnation, PutU64(h.nextIncarnation, tail)))))))))
  }

  predicate ParticipantFits(p: Participant) {
    && IdFits(p.id) && ScopesFit(p.scopes)
    && |p.extras| <= MAX_RECORDS && |p.fencedBoots| <= MAX_RECORDS && |p.idempotency| <= MAX_RECORDS
  }

  function GetParticipant(b: Bytes): Read<Participant> {
    var h :- GetHead(b);
    var extras :- GetCounted(h.rest, MAX_RECORDS, 32, GetIncarnation);
    var scopes :- GetScopes(extras.rest, MAX_SCOPES, MAX_TEXT);
    var accepted :- GetU64(scopes.rest);
    var replays :- GetU64(accepted.rest);
    var fenced :- GetCounted(replays.rest, MAX_RECORDS, 16, GetId);
    var attempts :- GetCounted(fenced.rest, MAX_RECORDS, ATTEMPT_SIZE, GetAttempt);
    Ok(Parsed(Participant(h.value.id, h.value.registrationGeneration, h.value.fenceGeneration, h.value.incarnationFloor,
                          h.value.policy, h.value.flags.first, h.value.flags.second, h.value.flags.third, h.value.activeBoot,
                          h.value.activeIncarnation, h.value.nextIncarnation, extras.value, scopes.value, accepted.value,
                          replays.value, fenced.value, attempts.value), attempts.rest))
  }

  /** No text of the participant overflows its length field: all the encoder insists on. */
  predicate ParticipantWrites(p: Participant) {
    Writes(p.id.text) && ScopesWrite(p.scopes)
  }

  function PutParticipant(p: Participant, tail: Bytes): Bytes {
    PutHead(HeadOf(p), PutCounted(p.extras, PutScopes(p.scopes, PutU64(p.acceptedRegistrations, PutU64(p.replayHits,
      PutCounted(p.fencedBoots, PutCounted(p.idempotency, tail, PutAttempt), PutId)))), PutIncarnation))
  }

  lemma ParticipantRoundTrip(p: Participant, tail: Bytes)
    requires ParticipantFits(p)
    ensures GetParticipant(PutParticipant(p, tail)) == Ok(Parsed(p, tail)) && |PutParticipant(p, tail)| >= 32 + |tail|
  {
    hide GetU64, PutU64, GetCounted, PutCounted, GetScopes, PutScopes, GetHead, PutHead, ScopesFit, IdFits, GetAttempt, PutAttempt, GetIncarnation, PutIncarnation, GetId, PutId;
    AllFaithful(p.extras, p.fencedBoots, p.idempotency);
    var attempts := PutCounted(p.idempotency, tail, PutAttempt);
    CountedRoundTrip(p.idempotency, tail, MAX_RECORDS, ATTEMPT_SIZE, ATTEMPT_SIZE, GetAttempt, PutAttempt);
    var fenced := PutCounted(p.fencedBoots, attempts, PutId);
    CountedRoundTrip(p.fencedBoots, attempts, MAX_RECORDS, 16, 16, GetId, PutId);
    var counters := PutU64(p.acceptedRegistrations, PutU64(p.replayHits, fenced));
    ScopesRoundTrip(p.scopes, counters, MAX_TEXT);
    var scopes := PutScopes(p.scopes, counters);
    CountedRoundTrip(p.extras, scopes, MAX_RECORDS, 32, 32, GetIncarnation, PutIncarnation);
    ParticipantSize(p, tail);
  }

  lemma AllFaithful(extras: seq<ActiveIncarnation>, boots: seq<Id>, attempts: seq<AttemptRecord>)
    ensures Faithful(extras, 32, GetIncarnation, PutIncarnation)
    ensures Faithful(boots, 16, GetId, PutId)
    ensures Faithful(attempts, ATTEMPT_SIZE, GetAttempt, PutAttempt)
  {
    hide GetIncarnation, PutIncarnation, GetId, PutId, GetAttempt, PutAttempt;
  }

  lemma CountedSize<T(!new)>(xs: seq<T>, tail: Bytes, unit: nat, get: Bytes -> Read<T>, put: (T, Bytes) --> Bytes)
    requires Faithful(xs, unit, get, put) && |xs| <= MAX_RECORDS
    ensures |PutCounted(xs, tail, put)| >= 4 + |xs| * unit + |tail|
  {
    ListRoundTrip(xs, tail, unit, get, put);
  }

  lemma ParticipantSize(p: Participant, tail: Bytes)
    requires ParticipantFits(p)
    ensures |PutParticipant(p, tail)| >= 32 + |tail|
  {
    hide GetU64, PutU64, GetCounted, PutCounted, GetScopes, PutScopes, GetHead, PutHead, ScopesFit, IdFits, GetAttempt, PutAttempt, GetIncarnation, PutIncarnation, GetId, PutId;
    AllFaithful(p.extras, p.fencedBoots, p.idempotency);
    var attempts := PutCounted(p.idempotency, tail, PutAttempt);
    CountedSize(p.idempotency, tail, ATTEMPT_SIZE, GetAttempt, PutAttempt);
    var fenced := PutCounted(p.fencedBoots, attempts, PutId);
    CountedSize(p.fencedBoots, attempts, 16, GetId, PutId);
    var counters := PutU64(p.acceptedRegistrations, PutU64(p.replayHits, fenced));
    ScopesRoundTrip(p.scopes, counters, MAX_TEXT);
    var scopes := PutScopes(p.scopes, counters);
    CountedSize(p.extras, scopes, 32, GetIncarnation, PutIncarnation);
  }

  // ---- fences ------------------------------------------------------------

  predicate FenceFits(f: FenceRecord) {
    IdFits(f.participant) && TextFits(f.note)
  }

  function GetFence(b: Bytes): Read<FenceRecord> {
    var boot :- GetId(b);
    var participant :- GetParticipantId(boot.rest, MAX_TEXT);
    var reason :- GetReason(participant.rest);
    var generation :- GetU64(reason.rest);
    var epoch :- GetU64(generation.rest);
    var incarnation :- GetU64(epoch.rest);
    var note :- GetBoundedText(incarnation.rest, MAX_TEXT);
    Ok(Parsed(FenceRecord(boot.value, participant.value, reason.value, generation.value, epoch.value, incarnation.value, note.value),
              note.rest))
  }

  predicate FenceWrites(f: FenceRecord) {
    Writes(f.participant.text) && Writes(f.note)
  }

  lemma Short(id: ParticipantId, text: Bytes)
    ensures IdFits(id) ==> 0 < |id.text| <= MAX_IDENTIFIER
    ensures TextFits(text) ==> |text| <= MAX_TEXT
  {
  }

  function PutFence(f: FenceRecord, tail: Bytes): (b: Bytes)
    ensures FenceFits(f) ==> GetFence(b) == Ok(Parsed(f, tail)) && |b| >= 50 + |tail|
  {
    hide GetId, PutId, GetU64, PutU64, GetText, PutText, GetU8, PutU8, IsIdentifierText, IsBoundedText;
    Short(f.participant, f.note);
    PutId(f.boot, PutText(f.participant.text, PutU8(ReasonCode(f.reason), PutU64(f.generation, PutU64(f.epoch,
      PutU64(f.incarnation, PutText(f.note, tail)))))))
  }

  // ---- grants ------------------------------------------------------------

  predicate GrantFits(g: Grant) {
    IdFits(g.participant) && ScopesFit(g.scopes) && TextFits(g.provenance)
  }

  /** The fields of a grant after its scopes. An absent parent or delegator is written as nil, and
      whatever stands there is ignored when its flag is clear. */
  function GetGrantTail(b: Bytes): Read<(U64, Option<Id>, Option<Id>, bool, U64, Bytes)> {
    var generation :- GetU64(b);
    var flags :- GetFlags(generation.rest);
    var parent :- GetId(flags.rest);
    var delegator :- GetId(parent.rest);
    var revokedAt :- GetU64(delegator.rest);
    var provenance :- GetBoundedText(revokedAt.rest, MAX_TEXT);
    Ok(Parsed((generation.value, if flags.value.first then Some(parent.value) else None,
               if flags.value.second then Some(delegator.value) else None, flags.value.third, revokedAt.value, provenance.value),
              provenance.rest))
  }

  function PutGrantTail(g: Grant, tail: Bytes): (b: Bytes)
    ensures TextFits(g.provenance) ==>
              GetGrantTail(b) == Ok(Parsed((g.generation, g.parent, g.delegatorBoot, g.revoked, g.revokedAtEpoch, g.provenance), tail))
    ensures |b| >= 53 + |tail|
  {
    hide GetId, PutId, GetU64, PutU64, GetText, PutText, GetU8, PutU8;
    PutU64(g.generation, PutU8(FlagsCode(Flags(g.parent.Some?, g.delegatorBoot.Some?, g.revoked)),
      PutId(OrNil(g.parent), PutId(OrNil(g.delegatorBoot), PutU64(g.revokedAtEpoch, PutText(g.provenance, tail))))))
  }

  function GetGrant(b: Bytes): Read<Grant> {
    var id :- GetId(b);
    var epoch :- GetU64(id.rest);
    var participant :- GetParticipantId(epoch.rest, MAX_TEXT);
    var boot :- GetId(participant.rest);
    var incarnation :- GetU64(boot.rest);
    var scopes :- GetScopes(incarnation.rest, MAX_SCOPES, MAX_TEXT);
    var t :- GetGrantTail(scopes.rest);
    Ok(Parsed(Grant(id.value, epoch.value, participant.value, boot.value, incarnation.value, scopes.value, t.value.0, t.value.1,
                    t.value.2, t.value.3, t.value.4, t.value.5), t.rest))
  }

  predicate GrantWrites(g: Grant) {
    Writes(g.participant.text) && ScopesWrite(g.scopes) && Writes(g.provenance)
  }

  function PutGrant(g: Grant, tail: Bytes): Bytes {
    PutId(g.id, PutU64(g.epoch, PutText(g.participant.text, PutId(g.boot, PutU64(g.incarnation,
      PutScopes(g.scopes, PutGrantTail(g, tail)))))))
  }

  lemma GrantRoundTrip(g: Grant, tail: Bytes)
    requires GrantFits(g)
    ensures GetGrant(PutGrant(g, tail)) == Ok(Parsed(g, tail)) && |PutGrant(g, tail)| >= 110 + |tail|
  {
    hide GetScopes, PutScopes, GetGrantTail, PutGrantTail, ScopesFit, TextFits, GetId, PutId, GetU64, PutU64, GetText, PutText;
    ScopesRoundTrip(g.scopes, PutGrantTail(g, tail), MAX_TEXT);
  }

  // ---- transitions -------------------------------------------------------

  predicate TransitionFits(t: Transition) {
    TextFits(t.provenance)
  }

  /** What a transition takes: never less than 61 bytes. */
  const TRANSITION_SIZE: nat := 61

  /** What the decoder demands of the remaining input for each transition. */
  const TRANSITION_DEMAND: nat := 65

  function GetTransition(b: Bytes): Read<Transition> {
    var id :- GetId(b);
    var fromEpoch :- GetU64(id.rest);
    var toEpoch :- GetU64(fromEpoch.rest);
    var cause :- GetCause(toEpoch.rest);
    var boot :- GetId(cause.rest);
    var generation :- GetU64(boot.rest);
    var provenance :- GetBoundedText(generation.rest, MAX_TEXT);
    Ok(Parsed(Transition(id.value, fromEpoch.value, toEpoch.value, cause.value, boot.value, generation.value, provenance.value),
              provenance.rest))
  }

  predicate TransitionWrites(t: Transition) {
    Writes(t.provenance)
  }

  function PutTransition(t: Transition, tail: Bytes): (b: Bytes)
    ensures TransitionFits(t) ==> GetTransition(b) == Ok(Parsed(t, tail))
    ensures |b| == TRANSITION_SIZE + |t.provenance| + |tail|
  {
    hide GetId, PutId, GetU64, PutU64, GetText, PutText, GetU8, PutU8;
    PutId(t.id, PutU64(t.fromEpoch, PutU64(t.toEpoch, PutU8(CauseCode(t.cause), PutId(t.coordinatorBoot,
      PutU64(t.generation, PutText(t.provenance, tail)))))))
  }

  function ProvenanceBytes(ts: seq<Transition>): nat {
    if ts == [] then 0 else |ts[0].provenance| + ProvenanceBytes(ts[1..])
  }

  lemma {:induction false} TransitionsSize(ts: seq<Transition>, tail: Bytes)
    ensures |PutList(ts, tail, PutTransition)| == TRANSITION_SIZE * |ts| + ProvenanceBytes(ts) + |tail|
  {
    if ts != [] {
      assert ts[0] in ts && forall t :: t in ts[1..] ==> t in ts;
      TransitionsSize(ts[1..], tail);
    }
  }

  // ---- the payload -------------------------------------------------------

  predicate DurableFits(d: DurableState) {
    && |d.participants| <= MAX_RECORDS && (forall p :: p in d.participants ==> ParticipantFits(p))
    && |d.fences| <= MAX_RECORDS && (forall f :: f in d.fences ==> FenceFits(f))
    && |d.grants| <= MAX_RECORDS && (forall g :: g in d.grants ==> GrantFits(g))
    && |d.transitions| <= MAX_RECORDS && (forall t :: t in d.transitions ==> TransitionFits(t))
    && |d.control| <= MAX_RECORDS
  }

  /** No text of the state overflows its length field. */
  predicate DurableWrites(d: DurableState) {
    && (forall p :: p in d.participants ==> ParticipantWrites(p)) && (forall f :: f in d.fences ==> FenceWrites(f))
    && (forall g :: g in d.grants ==> GrantWrites(g)) && (forall t :: t in d.transitions ==> TransitionWrites(t))
  }

  lemma FitsWrites(d: DurableState)
    requires DurableFits(d)
    ensures DurableWrites(d)
  {
    forall p | p in d.participants
      ensures ParticipantWrites(p)
    {
      WellWrites(p.scopes);
    }
    forall g | g in d.grants
      ensures GrantWrites(g)
    {
      WellWrites(g.scopes);
    }
  }

  function PutControl(d: DurableState): Bytes {
    PutCounted(d.control, [], PutAttempt)
  }

  function PutTransitions(d: DurableState): Bytes {
    PutCounted(d.transitions, PutControl(d), PutTransition)
  }

  function PutGrants(d: DurableState): Bytes {
    PutCounted(d.grants, PutTransitions(d), PutGrant)
  }

  function PutFences(d: DurableState): Bytes {
    PutCounted(d.fences, PutGrants(d), PutFence)
  }

  function PutParticipants(d: DurableState): Bytes {
    PutCounted(d.participants, PutFences(d), PutParticipant)
  }

  function PutCounters(c: Counters, tail: Bytes): (b: Bytes)
    ensures GetCounters(b) == Ok(Parsed(c, tail))
  {
    hide GetId, PutId, GetU64, PutU64;
    PutU64(c.epoch, PutId(c.coordinatorBoot, PutU64(c.generation, PutU64(c.registrationFloor, PutU64(c.fenceFloor, tail)))))
  }

  function CountersOf(d: DurableState): Counters {
    Counters(d.epoch, d.coordinatorBoot, d.generation, d.registrationFloor, d.fenceFloor)
  }

  function EncodePayload(d: DurableState): Bytes {
    PutCounters(CountersOf(d), PutParticipants(d))
  }

  /** What the encoder makes of a state: it refuses only a text too long for its length field. */
  function EncodedPayload(d: DurableState): Result<Bytes, CodecError> {
    if DurableWrites(d) then Ok(EncodePayload(d)) else Err(OverLimit)
  }

  /** The counters at the front of a payload. */
  datatype Counters = Counters(epoch: U64, coordinatorBoot: Id, generation: U64, registrationFloor: U64, fenceFloor: U64)

  function GetCounters(b: Bytes): Read<Counters> {
    var epoch :- GetU64(b);
    var boot :- GetId(epoch.rest);
    var generation :- GetU64(boot.rest);
    var registrationFloor :- GetU64(generation.rest);
    var fenceFloor :- GetU64(registrationFloor.rest);
    Ok(Parsed(Counters(epoch.value, boot.value, generation.value, registrationFloor.value, fenceFloor.value), fenceFloor.rest))
  }

  function GetAuthority(b: Bytes): Read<(seq<Participant>, seq<FenceRecord>, seq<Grant>)> {
    var participants :- GetCounted(b, MAX_RECORDS, 32, GetParticipant);
    var fences :- GetCounted(participants.rest, MAX_RECORDS, 49, GetFence);
    var grants :- GetCounted(fences.rest, MAX_RECORDS, 89, GetGrant);
    Ok(Parsed((participants.value, fences.value, grants.value), grants.rest))
  }

  function GetHistory(b: Bytes): Read<(seq<Transition>, seq<AttemptRecord>)> {
    var transitions :- GetCounted(b, MAX_RECORDS, TRANSITION_DEMAND, GetTransition);
    var control :- GetCounted(transitions.rest, MAX_RECORDS, ATTEMPT_SIZE, GetAttempt);
    Ok(Parsed((transitions.value, control.value), control.rest))
  }

  function DecodePayload(b: Bytes): Result<DurableState, CodecError> {
    var c :- GetCounters(b);
    var a :- GetAuthority(c.rest);
    var h :- GetHistory(a.rest);
    if h.rest != [] then Err(BadInput)
    else Ok(DurableState(c.value.epoch, c.value.coordinatorBoot, c.value.generation, c.value.registrationFloor, c.value.fenceFloor,
                         a.value.0, a.value.1, a.value.2, h.value.0, h.value.1))
  }

  /** Whether the transitions and control attempts together meet the decoder's demand. */
  predicate TransitionsMeetDemand(d: DurableState) {
    TRANSITION_DEMAND * |d.transitions|
    <= TRANSITION_SIZE * |d.transitions| + ProvenanceBytes(d.transitions) + 4 + ATTEMPT_SIZE * |d.control|
  }

  lemma ParticipantsFaithful(ps: seq<Participant>)
    requires forall p :: p in ps ==> ParticipantFits(p)
    ensures Faithful(ps, 32, GetParticipant, PutParticipant)
  {
    hide ParticipantFits, GetParticipant, PutParticipant;
    forall p, t: Bytes | p in ps
      ensures GetParticipant(PutParticipant(p, t)) == Ok(Parsed(p, t)) && |PutParticipant(p, t)| >= 32 + |t|
    {
      ParticipantRoundTrip(p, t);
    }
  }

  lemma FencesFaithful(fs: seq<FenceRecord>)
    requires forall f :: f in fs ==> FenceFits(f)
    ensures Faithful(fs, 49, GetFence, PutFence)
  {
    hide FenceFits, GetFence, PutFence;
  }

  lemma GrantsFaithful(gs: seq<Grant>)
    requires forall g :: g in gs ==> GrantFits(g)
    ensures Faithful(gs, 89, GetGrant, PutGrant)
  {
    hide GrantFits, GetGrant, PutGrant;
    forall g, t: Bytes | g in gs
      ensures GetGrant(PutGrant(g, t)) == Ok(Parsed(g, t)) && |PutGrant(g, t)| >= 89 + |t|
    {
      GrantRoundTrip(g, t);
    }
  }

  lemma TransitionsFaithful(ts: seq<Transition>)
    requires forall t :: t in ts ==> TransitionFits(t)
    ensures Faithful(ts, TRANSITION_SIZE, GetTransition, PutTransition)
  {
    hide TransitionFits, GetTransition, PutTransition;
  }

  lemma ControlRoundTrip(d: DurableState)
    requires DurableFits(d)
    ensures GetCounted(PutControl(d), MAX_RECORDS, ATTEMPT_SIZE, GetAttempt) == Ok(Parsed(d.control, []))
    ensures |PutControl(d)| == 4 + ATTEMPT_SIZE * |d.control|
  {
    hide GetCounted, GetAttempt, PutAttempt;
    AllFaithful([], [], d.control);
    CountedRoundTrip(d.control, [], MAX_RECORDS, ATTEMPT_SIZE, ATTEMPT_SIZE, GetAttempt, PutAttempt);
    AttemptsSize(d.control, []);
  }

  lemma {:induction false} AttemptsSize(rs: seq<AttemptRecord>, tail: Bytes)
    ensures |PutList(rs, tail, PutAttempt)| == ATTEMPT_SIZE * |rs| + |tail|
  {
    hide PutAttempt, GetAttempt;
    if rs != [] {
      AttemptsSize(rs[1..], tail);
    }
  }

  /** The one check that can refuse a genuine encoding. */
  lemma TransitionsRoundTripIff(d: DurableState)
    requires DurableFits(d)
    ensures GetCounted(PutTransitions(d), MAX_RECORDS, TRANSITION_DEMAND, GetTransition)
            == if TransitionsMeetDemand(d) then Ok(Parsed(d.transitions, PutControl(d))) else Err(BadInput)
  {
    hide GetCounted, PutControl, GetTransition, PutTransition, PutCounted, PutList;
    TransitionsFaithful(d.transitions);
    ControlRoundTrip(d);
    TransitionsSize(d.transitions, PutControl(d));
    CountedRoundTripIff(d.transitions, PutControl(d), MAX_RECORDS, TRANSITION_DEMAND, TRANSITION_SIZE, GetTransition, PutTransition);
  }

  /** Durable round trip: decoding an encoded state gives that state back exactly when its
      transitions and control attempts meet the decoder's demand; none of the other size checks
      ever refuses a genuine encoding. */
  lemma PayloadRoundTripIff(d: DurableState)
    requires DurableFits(d)
    ensures DecodePayload(EncodePayload(d)) == if TransitionsMeetDemand(d) then Ok(d) else Err(BadInput)
  {
    hide GetCounters, PutCounters, GetCounted, PutCounted, PutTransitions, PutControl, TransitionsMeetDemand, GetParticipant, PutParticipant, GetFence, PutFence, GetGrant, PutGrant, GetTransition, PutTransition, GetAttempt, PutAttempt;
    ParticipantsFaithful(d.participants);
    FencesFaithful(d.fences);
    GrantsFaithful(d.grants);
    CountedRoundTrip(d.participants, PutFences(d), MAX_RECORDS, 32, 32, GetParticipant, PutParticipant);
    CountedRoundTrip(d.fences, PutGrants(d), MAX_RECORDS, 49, 49, GetFence, PutFence);
    CountedRoundTrip(d.grants, PutTransitions(d), MAX_RECORDS, 89, 89, GetGrant, PutGrant);
    TransitionsRoundTripIff(d);
    ControlRoundTrip(d);
  }

  /** Four provenance bytes a transition are enough; so is one control attempt for every twenty
      transitions, or a single transition. */
  lemma EnoughProvenance(d: DurableState)
    requires (forall t :: t in d.transitions ==> |t.provenance| >= 4) || |d.transitions| <= 1 || |d.transitions| <= 20 * |d.control|
    ensures TransitionsMeetDemand(d)
  {
    if forall t :: t in d.transitions ==> |t.provenance| >= 4 {
      FourEach(d.transitions);
    }
  }

  lemma {:induction false} FourEach(ts: seq<Transition>)
    requires forall t :: t in ts ==> |t.provenance| >= 4
    ensures ProvenanceBytes(ts) >= 4 * |ts|
  {
    if ts != [] {
      assert ts[0] in ts && forall t :: t in ts[1..] ==> t in ts;
      FourEach(ts[1..]);
    }
  }

  /** A coordinator that restarts once, with an empty provenance and no control attempt, writes an
      image it cannot read back. */
  lemma TwoRestartsUnreadable(d: DurableState)
    requires DurableFits(d) && |d.transitions| == 2 && d.control == []
    requires d.transitions[0].provenance == [] && d.transitions[1].provenance == []
    ensures DecodePayload(EncodePayload(d)) == Err(BadInput)
  {
    hide DecodePayload, EncodePayload, DurableFits;
    PayloadRoundTripIff(d);
    assert ProvenanceBytes(d.transitions) == ProvenanceBytes(d.transitions[1..]) == ProvenanceBytes(d.transitions[1..][1..]);
  }

  // ---- what the decoder accepts -------------------------------------------

  lemma AcceptedScopeSet(b: Bytes)
    ensures GetScopes(b, MAX_SCOPES, MAX_TEXT).Ok? ==> ScopesFit(GetScopes(b, MAX_SCOPES, MAX_TEXT).value.value)
  {
    hide GetScopesAfter, ScopesWell;
    var n := GetU32(b);
    if n.Ok? && n.value.value <= MAX_SCOPES && GetScopesAfter(n.value.value, None, n.value.rest, MAX_TEXT).Ok? {
      AcceptedScopesWell(n.value.value, None, n.value.rest, MAX_TEXT);
    }
  }

  lemma AcceptedHead(b: Bytes)
    ensures GetHead(b).Ok? ==> IdFits(GetHead(b).value.value.id)
  {
    hide GetText, GetU64, GetU8, GetId, IsIdentifierText, GetPolicy, GetFlags;
  }

  lemma AcceptedParticipant(b: Bytes)
    ensures GetParticipant(b).Ok? ==> ParticipantFits(GetParticipant(b).value.value)
  {
    hide GetHead, GetCounted, GetScopes, GetU64, IdFits, ScopesFit, GetAttempt, GetIncarnation, GetId;
    AcceptedHead(b);
    forall c: Bytes
      ensures GetScopes(c, MAX_SCOPES, MAX_TEXT).Ok? ==> ScopesFit(GetScopes(c, MAX_SCOPES, MAX_TEXT).value.value)
    {
      AcceptedScopeSet(c);
    }
    AcceptedCounts(GetIncarnation, 32);
    AcceptedCounts(GetId, 16);
    AcceptedCounts(GetAttempt, ATTEMPT_SIZE);
  }

  lemma AcceptedCounts<T(!new)>(get: Bytes -> Read<T>, unit: nat)
    ensures forall b: Bytes :: GetCounted(b, MAX_RECORDS, unit, get).Ok? ==>
              |GetCounted(b, MAX_RECORDS, unit, get).value.value| <= MAX_RECORDS
  {
    hide GetList;
  }

  lemma AcceptedFence(b: Bytes)
    ensures GetFence(b).Ok? ==> FenceFits(GetFence(b).value.value)
  {
    hide GetText, GetU64, GetU8, GetId, GetReason, IsIdentifierText, IsBoundedText;
  }

  lemma AcceptedGrant(b: Bytes)
    ensures GetGrant(b).Ok? ==> GrantFits(GetGrant(b).value.value)
  {
    hide GetText, GetU64, GetU8, GetId, GetFlags, GetScopes, ScopesFit, IsIdentifierText, IsBoundedText;
    forall c: Bytes
      ensures GetScopes(c, MAX_SCOPES, MAX_TEXT).Ok? ==> ScopesFit(GetScopes(c, MAX_SCOPES, MAX_TEXT).value.value)
    {
      AcceptedScopeSet(c);
    }
  }

  lemma AcceptedTransition(b: Bytes)
    ensures GetTransition(b).Ok? ==> TransitionFits(GetTransition(b).value.value)
  {
    hide GetText, GetU64, GetU8, GetId, GetCause, IsBoundedText;
  }

  /** Whatever the decoder accepts, the encoder can write: identifiers, texts and scope sets are
      well formed and canonical, and no list is over the ceilings. */
  lemma AcceptedFits(b: Bytes)
    ensures DecodePayload(b).Ok? ==> DurableFits(DecodePayload(b).value)
  {
    hide GetCounters, GetCounted, GetParticipant, GetFence, GetGrant, GetTransition, GetAttempt, ParticipantFits, FenceFits, GrantFits, TransitionFits;
    var c := GetCounters(b);
    if c.Ok? {
      AllAccepted(c.value.rest);
    }
  }

  lemma AllAccepted(b: Bytes)
    ensures var a := GetAuthority(b);
            a.Ok? ==>
              && |a.value.value.0| <= MAX_RECORDS && (forall p :: p in a.value.value.0 ==> ParticipantFits(p))
              && |a.value.value.1| <= MAX_RECORDS && (forall f :: f in a.value.value.1 ==> FenceFits(f))
              && |a.value.value.2| <= MAX_RECORDS && (forall g :: g in a.value.value.2 ==> GrantFits(g))
              && var h := GetHistory(a.value.rest);
                 h.Ok? ==> |h.value.value.0| <= MAX_RECORDS && (forall t :: t in h.value.value.0 ==> TransitionFits(t))
                           && |h.value.value.1| <= MAX_RECORDS
  {
    hide GetCounted, GetParticipant, GetFence, GetGrant, GetTransition, GetAttempt, ParticipantFits, FenceFits, GrantFits, TransitionFits;
    forall c: Bytes
      ensures GetParticipant(c).Ok? ==> ParticipantFits(GetParticipant(c).value.value)
      ensures GetFence(c).Ok? ==> FenceFits(GetFence(c).value.value)
      ensures GetGrant(c).Ok? ==> GrantFits(GetGrant(c).value.value)
      ensures GetTransition(c).Ok? ==> TransitionFits(GetTransition(c).value.value)
    {
      AcceptedParticipant(c);
      AcceptedFence(c);
      AcceptedGrant(c);
      AcceptedTransition(c);
    }
    AcceptedCounted(b, MAX_RECORDS, 32, GetParticipant, ParticipantFits);
    var ps := GetCounted(b, MAX_RECORDS, 32, GetParticipant);
    if ps.Ok? {
      AcceptedCounted(ps.value.rest, MAX_RECORDS, 49, GetFence, FenceFits);
      var fs := GetCounted(ps.value.rest, MAX_RECORDS, 49, GetFence);
      if fs.Ok? {
        AcceptedCounted(fs.value.rest, MAX_RECORDS, 89, GetGrant, GrantFits);
        var gs := GetCounted(fs.value.rest, MAX_RECORDS, 89, GetGrant);
        if gs.Ok? {
          AcceptedCounted(gs.value.rest, MAX_RECORDS, TRANSITION_DEMAND, GetTransition, TransitionFits);
          AcceptedCounts(GetAttempt, ATTEMPT_SIZE);
        }
      }
    }
  }
}
