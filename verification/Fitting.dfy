/** What the engine reaches, the codec can carry: identifiers, texts and scope sets stay well formed
    and counts stay within the ceilings, so that a reachable state is read back from its image
    exactly when its transitions meet the decoder's demand and its payload is within the limit. */
module Fitting {
  import opened Basics
  import opened Model
  import opened Forest
  import opened Authority
  import opened Invariant
  import opened Preservation
  import opened Batch
  import opened Runs
  import opened Canonical
  import opened Validator
  import opened Codec
  import opened DurableCodec
  import opened Image

  // ---- requests ----------------------------------------------------------

  predicate RegisterFits(req: RegisterRequest) {
    IdFits(req.participant) && ScopesWell(req.scopes)
  }

  /** The identifiers, texts and scope sets of a request are values of their types. */
  predicate OpFits(op: Op) {
    match op
    case DoRegister(req) => RegisterFits(req)
    case DoBatch(reqs) => forall i :: 0 <= i < |reqs| ==> RegisterFits(reqs[i])
    case DoFence(req) => TextFits(req.note)
    case DoLoseSession(_, _, _) => true
    case DoRetire(req) => TextFits(req.note)
    case DoGrant(req, _) => ScopesWell(req.scopes) && TextFits(req.provenance)
    case DoRevoke(_) => true
    case DoAdvance(_, _) => true
    case DoReopen(_, _) => true
  }

  // ---- states ------------------------------------------------------------

  predicate MembersFit(participants: map<ParticipantId, Participant>) {
    forall id :: id in participants ==> IdFits(id) && ScopesFit(participants[id].scopes)
  }

  predicate FencesFit(fences: seq<FenceRecord>) {
    forall f :: f in fences ==> FenceFits(f)
  }

  predicate GrantsFit(grants: seq<Grant>) {
    forall g :: g in grants ==> GrantFits(g)
  }

  /** Every transition carries the configured provenance. */
  predicate Stamped(o: Options, transitions: seq<Transition>) {
    forall t :: t in transitions ==> t.provenance == o.provenance
  }

  predicate StateFits(o: Options, s: State) {
    MembersFit(s.participants) && FencesFit(s.fences) && GrantsFit(s.grants) && Stamped(o, s.transitions)
  }

  lemma RememberedMembers<T>(table: seq<T>, bound: nat, record: T)
    ensures forall x :: x in Remember(table, bound, record) ==> x in table || x == record
  {
  }

  // ---- fences ------------------------------------------------------------

  lemma FenceKeepsFit(o: Options, s: State, id: ParticipantId, boot: Id, reason: FenceReason, note: Bytes, defensive: bool)
    requires StateFits(o, s) && TextFits(note)
    ensures var step := RecordFence(o, s, id, boot, reason, note, defensive); step.Done? ==> StateFits(o, step.state)
  {
    hide RecordFence, MembersFit, FencesFit, GrantsFit, Stamped, TextFits;
    RecordFenceFrame(o, s, id, boot, reason, note, defensive);
    var step := RecordFence(o, s, id, boot, reason, note, defensive);
    if step.Done? {
      FrameFits(s, step.state, id);
      FencesStayFit(o, s, id, boot, reason, note, defensive);
    }
  }

  lemma FrameFits(s: State, s': State, id: ParticipantId)
    requires FenceFrame(s, s', id) && MembersFit(s.participants)
    ensures MembersFit(s'.participants) && s'.grants == s.grants && s'.transitions == s.transitions
  {
    hide IdFits, ScopesFit;
    forall k | k in s'.participants
      ensures IdFits(k) && ScopesFit(s'.participants[k].scopes)
    {
      assert k in s.participants;
    }
  }

  lemma FencesStayFit(o: Options, s: State, id: ParticipantId, boot: Id, reason: FenceReason, note: Bytes, defensive: bool)
    requires MembersFit(s.participants) && FencesFit(s.fences) && TextFits(note)
    ensures var step := RecordFence(o, s, id, boot, reason, note, defensive); step.Done? ==> FencesFit(step.state.fences)
  {
    hide LookupFence, FindIncarnation, FencedParticipant, IdFits, TextFits, ScopesFit, Remember;
    if id in s.participants && s.fenceFloor < U64_MAX {
      var found := FindIncarnation(s.participants[id], boot);
      var record := FenceRecord(boot, id, reason, s.fenceFloor + 1, s.epoch, if found.Some? then found.value else 0, note);
      RememberedMembers(s.fences, o.limits.maxRecentFences, record);
    }
  }

  lemma {:induction false} FenceEachKeepsFit(o: Options, s: State, id: ParticipantId, boots: seq<Id>, note: Bytes)
    requires StateFits(o, s) && TextFits(note)
    ensures var step := FenceEach(o, s, id, boots, note); step.Done? ==> StateFits(o, step.state)
  {
    hide RecordFence, StateFits, TextFits;
    if boots != [] {
      FenceEachKeepsFit(o, s, id, boots[..|boots| - 1], note);
      var before := FenceEach(o, s, id, boots[..|boots| - 1], note);
      if before.Done? {
        FenceKeepsFit(o, before.state, id, boots[|boots| - 1], AdministrativeRevoke, note, false);
      }
    }
  }

  /** The same scopes under the same identifiers fit as before. */
  lemma SameScopesFit(m: map<ParticipantId, Participant>, m': map<ParticipantId, Participant>)
    requires MembersFit(m) && m'.Keys == m.Keys && forall id :: id in m ==> m'[id].scopes == m[id].scopes
    ensures MembersFit(m')
  {
    hide IdFits, ScopesFit;
    forall id | id in m'
      ensures IdFits(id) && ScopesFit(m'[id].scopes)
    {
      assert id in m;
    }
  }

  lemma FenceWorkerKeepsFit(o: Options, s: State, req: FenceRequest)
    requires StateFits(o, s) && TextFits(req.note)
    ensures var step := FenceWorker(o, s, req); step.Done? ==> StateFits(o, step.state)
  {
    hide RecordFence, MembersFit, FencesFit, GrantsFit, Stamped, TextFits, FindAttempt, Remember;
    FenceKeepsFit(o, s, req.participant, req.boot, req.reason, req.note, true);
    var fence := RecordFence(o, s, req.participant, req.boot, req.reason, req.note, true);
    var step := FenceWorker(o, s, req);
    if fence.Done? && step.Done? && step.mutated {
      SameScopesFit(fence.state.participants, step.state.participants);
    }
  }

  lemma RetireKeepsFit(o: Options, s: State, req: RetireRequest)
    requires StateFits(o, s) && TextFits(req.note)
    ensures var step := Retire(o, s, req); step.Done? ==> StateFits(o, step.state)
  {
    hide FenceEach, MembersFit, FencesFit, GrantsFit, Stamped, TextFits, FindAttempt, Remember, LiveBoots;
    var live := LiveBootsOf(s, req.participant);
    FenceEachKeepsFit(o, s, req.participant, live, req.note);
    var fenced := FenceEach(o, s, req.participant, live, req.note);
    var step := Retire(o, s, req);
    if step.Done? && step.mutated {
      SameScopesFit(fenced.state.participants, step.state.participants);
    }
  }

  // ---- registrations -----------------------------------------------------

  lemma EnrolKeepsFit(o: Options, s: State, req: RegisterRequest, commit: bool, mutated: bool)
    requires StateFits(o, s) && IdFits(req.participant) && ScopesFit(req.scopes)
    ensures var step := EnrolWithinLimits(o, s, req, commit, mutated); step.Done? ==> StateFits(o, step.state)
  {
    hide FencesFit, GrantsFit, Stamped, IdFits, ScopesFit, Remember, Workers;
  }

  lemma ScreenedScopes(o: Options, s: State, req: RegisterRequest)
    requires ViableOptions(o) && ScopesWell(req.scopes)
    ensures !Screen(o, s, req).Refuse? ==> ScopesFit(req.scopes)
  {
    hide ScreenKnown, ScopesWell, IsBoundedText, RegistrableScopes;
  }

  lemma RegisterKeepsFit(o: Options, s: State, req: RegisterRequest, commit: bool)
    requires ViableOptions(o) && StateFits(o, s) && RegisterFits(req)
    ensures var step := Register(o, s, req, commit); step.Done? ==> StateFits(o, step.state)
  {
    hide Screen, RecordFence, EnrolWithinLimits, StateFits, ScopesWell, IdFits, ViableOptions, ScopesFit;
    ScreenedScopes(o, s, req);
    var v := Screen(o, s, req);
    if !v.Refuse? {
      EnrolKeepsFit(o, s, req, commit, false);
    }
    if v.Replace? {
      NoteFits();
      FenceKeepsFit(o, s, req.participant, v.incumbent, Reincarnation, [], false);
      var fence := RecordFence(o, s, req.participant, v.incumbent, Reincarnation, [], false);
      if fence.Done? {
        EnrolKeepsFit(o, fence.state, req, commit, fence.mutated);
      }
    }
  }

  lemma NoteFits()
    ensures TextFits([])
  {
  }

  lemma {:induction false} EachKeepsFit(o: Options, s: State, reqs: seq<RegisterRequest>)
    requires ViableOptions(o) && StateFits(o, s) && forall i :: 0 <= i < |reqs| ==> RegisterFits(reqs[i])
    ensures var step := RegisterEach(o, s, reqs, false); step.Done? ==> StateFits(o, step.state)
  {
    hide Register, StateFits, RegisterFits, ViableOptions;
    if reqs != [] {
      EachKeepsFit(o, s, reqs[..|reqs| - 1]);
      var before := RegisterEach(o, s, reqs[..|reqs| - 1], false);
      if before.Done? {
        RegisterKeepsFit(o, before.state, reqs[|reqs| - 1], false);
      }
    }
  }

  // ---- grants and epochs -------------------------------------------------

  lemma GrantKeepsFit(o: Options, s: State, req: GrantRequest, id: Id)
    requires ViableOptions(o) && StateFits(o, s) && ScopesWell(req.scopes) && TextFits(req.provenance)
    ensures var step := GrantAuthority(o, s, req, id); step.Done? ==> StateFits(o, step.state)
  {
    hide FencesFit, Stamped, TextFits, ScopesWell, IdFits, FindAttempt, Evaluate, MayDelegate, ScopesWithin, Remember, MembersFit, IndexOf;
    var step := GrantAuthority(o, s, req, id);
    if step.Done? && step.mutated {
      SameScopesFit(s.participants, step.state.participants);
      KnownFits(s.participants, req.participant);
    }
  }

  lemma KnownFits(m: map<ParticipantId, Participant>, id: ParticipantId)
    requires MembersFit(m) && id in m
    ensures IdFits(id)
  {
  }

  lemma RevokeKeepsFit(o: Options, s: State, req: RevokeRequest)
    requires StateFits(o, s)
    ensures var step := RevokeAuthority(o, s, req); step.Done? ==> StateFits(o, step.state)
  {
    hide FencesFit, Stamped, MembersFit, FindAttempt, IndexOf, NewlyRevoked, Remember, GrantsFit;
    var step := RevokeAuthority(o, s, req);
    if step.Done? && step.mutated {
      SameTextsFit(s.grants, step.state.grants);
    }
  }

  lemma SameTextsFit(grants: seq<Grant>, after: seq<Grant>)
    requires GrantsFit(grants) && |after| == |grants|
    requires forall i :: 0 <= i < |grants| ==>
               after[i].participant == grants[i].participant && after[i].scopes == grants[i].scopes && after[i].provenance == grants[i].provenance
    ensures GrantsFit(after)
  {
    hide IdFits, ScopesFit, TextFits;
    forall g | g in after
      ensures GrantFits(g)
    {
      var i :| 0 <= i < |after| && after[i] == g;
      assert grants[i] in grants;
    }
  }

  lemma EpochKeepsFit(o: Options, s: State, boot: Id, cause: TransitionCause, invalidate: bool, transition: Id)
    requires StateFits(o, s) && s.epoch < U64_MAX && s.generation < U64_MAX
    ensures StateFits(o, MutateEpoch(o, s, boot, cause, invalidate, transition))
  {
    hide FencesFit, MembersFit, GrantsFit, Remember;
    var s' := MutateEpoch(o, s, boot, cause, invalidate, transition);
    RememberedMembers(s.transitions, o.limits.maxTransitionHistory,
                      Transition(transition, s.epoch, s.epoch + 1, cause, boot, s.generation + 1, o.provenance));
    if invalidate {
      SameScopesFit(s.participants, s'.participants);
    }
  }

  lemma AdvanceKeepsFit(o: Options, s: State, req: AdvanceRequest, transition: Id, boot: Id)
    requires StateFits(o, s)
    ensures var step := AdvanceEpoch(o, s, req, transition); step.Done? ==> StateFits(o, step.state)
    ensures var step := Reopen(o, s, boot, transition); step.Done? ==> StateFits(o, step.state)
  {
    hide FencesFit, MembersFit, GrantsFit, Stamped, Remember, MutateEpoch, FindAttempt;
    if s.epoch < U64_MAX && s.generation < U64_MAX {
      EpochKeepsFit(o, s, s.coordinatorBoot, req.cause, true, transition);
      EpochKeepsFit(o, s, boot, if s.epoch != 0 then CoordinatorRestart else CoordinatorStart, s.epoch != 0, transition);
    }
  }

  // ---- runs --------------------------------------------------------------

  /** Every operation keeps a fitting state fitting. */
  lemma OperationKeepsFit(o: Options, s: State, op: Op)
    requires ViableOptions(o) && StateFits(o, s) && OpFits(op) && Apply(o, s, op).Some?
    ensures StateFits(o, Apply(o, s, op).value)
  {
    hide StateFits, ViableOptions, RegisterFits, TextFits, ScopesWell, Register, RegisterEach, FenceWorker, RecordFence, Retire, GrantAuthority, RevokeAuthority, AdvanceEpoch, Reopen, FindIncarnation;
    match op
    case DoRegister(req) => RegisterKeepsFit(o, s, req, true);
    case DoBatch(reqs) =>
      EachKeepsFit(o, s, reqs);
      var each := RegisterEach(o, s, reqs, false);
      GenerationFits(o, each.state, Apply(o, s, op).value.generation);
    case DoFence(req) => FenceWorkerKeepsFit(o, s, req);
    case DoLoseSession(id, boot, reason) =>
      NoteFits();
      FenceKeepsFit(o, s, id, boot, FenceReasonFor(reason), [], false);
    case DoRetire(req) => RetireKeepsFit(o, s, req);
    case DoGrant(req, id) => GrantKeepsFit(o, s, req, id);
    case DoRevoke(req) => RevokeKeepsFit(o, s, req);
    case DoAdvance(req, t) => AdvanceKeepsFit(o, s, req, t, NIL);
    case DoReopen(boot, t) => AdvanceKeepsFit(o, s, AdvanceRequest(NIL, 0, CoordinatorStart, []), t, boot);
  }

  lemma GenerationFits(o: Options, s: State, g: U64)
    requires StateFits(o, s)
    ensures StateFits(o, s.(generation := g))
  {
  }

  lemma OpenedFits(o: Options, s: State)
    requires Opened(o, s)
    ensures StateFits(o, s)
  {
    hide Reopen;
    var boot, t :| FreshTransitionId(PRISTINE, t) && Reopen(o, PRISTINE, boot, t).Done? && Reopen(o, PRISTINE, boot, t).state == s;
    assert StateFits(o, PRISTINE);
    AdvanceKeepsFit(o, PRISTINE, AdvanceRequest(NIL, 0, CoordinatorStart, []), t, boot);
  }

  /** Given fitting requests, every reachable state fits. */
  lemma {:induction false} RunsFit(o: Options, trace: seq<State>, ops: seq<Op>, k: nat)
    requires ViableOptions(o) && IsRun(o, trace, ops) && k < |trace| && forall i :: 0 <= i < |ops| ==> OpFits(ops[i])
    ensures StateFits(o, trace[k])
    decreases k
  {
    hide Inv, Opened, BootsUnique, Follows, StateFits, OpFits, Apply, ViableOptions;
    if k == 0 {
      OpenedFits(o, trace[0]);
    } else {
      RunsFit(o, trace, ops, k - 1);
      RunsKeepInvariant(o, trace, ops, k - 1);
      FollowsApplies(o, trace[k - 1], ops[k - 1], trace[k]);
      OperationKeepsFit(o, trace[k - 1], ops[k - 1]);
    }
  }

  // ---- what a reachable state is on disk ----------------------------------

  /** The vector of a valid, fitting state is one the codec can carry. */
  lemma FitsDurable(o: Options, d: DurableState)
    requires ViableOptions(o) && DistinctParticipants(d.participants) && Inv(o, Abs(d))
    requires StateFits(o, Abs(d)) && TextFits(o.provenance)
    ensures DurableFits(d)
  {
    hide ToMap, DistinctParticipants, FencesOk, GrantsOk, TransitionsOk, ParticipantOk, IdFits, ScopesFit, TextFits, FenceFits, GrantFits;
    ToMapFacts(d.participants);
    ToMapSize(d.participants);
    forall p | p in d.participants
      ensures ParticipantFits(p)
    {
      var i :| 0 <= i < |d.participants| && d.participants[i] == p;
      assert p.id in Abs(d).participants && Abs(d).participants[p.id] == p;
      MemberCounts(o, Abs(d), p.id);
    }
  }

  lemma MemberCounts(o: Options, s: State, id: ParticipantId)
    requires ViableOptions(o) && Inv(o, s) && id in s.participants
    ensures var p := s.participants[id];
            |p.extras| <= MAX_RECORDS && |p.fencedBoots| <= MAX_RECORDS && |p.idempotency| <= MAX_RECORDS
  {
    hide FencesOk, GrantsOk, TransitionsOk, ControlOk, BootLive, LiveOk;
    LiveCountBounded(s, id);
  }

  lemma {:induction false} StampedBytes(o: Options, ts: seq<Transition>)
    requires Stamped(o, ts)
    ensures ProvenanceBytes(ts) == |o.provenance| * |ts|
  {
    if ts != [] {
      assert ts[0] in ts && forall t :: t in ts[1..] ==> t in ts;
      StampedBytes(o, ts[1..]);
      OneMore(|o.provenance|, |ts[1..]|);
    }
  }

  lemma OneMore(a: nat, n: nat)
    ensures a * (n + 1) == a * n + a
  {
  }

  /** What the decoder demands of a reachable state, in numbers a caller knows. */
  predicate DemandMet(o: Options, d: DurableState) {
    4 * |d.transitions| <= |o.provenance| * |d.transitions| + 4 + ATTEMPT_SIZE * |d.control|
  }

  lemma DemandMetIff(o: Options, d: DurableState)
    requires Stamped(o, d.transitions)
    ensures TransitionsMeetDemand(d) <==> DemandMet(o, d)
    ensures |o.provenance| >= 4 ==> DemandMet(o, d)
  {
    StampedBytes(o, d.transitions);
    if |o.provenance| >= 4 {
      assert |o.provenance| * |d.transitions| - 4 * |d.transitions| == (|o.provenance| - 4) * |d.transitions|;
    }
  }

  /** A run of fitting requests under a fitting configuration. */
  ghost predicate FittingRun(o: Options, trace: seq<State>, ops: seq<Op>) {
    ViableOptions(o) && TextFits(o.provenance) && IsRun(o, trace, ops) && forall i :: 0 <= i < |ops| ==> OpFits(ops[i])
  }

  lemma ReachedFits(o: Options, trace: seq<State>, ops: seq<Op>, k: nat, d: DurableState)
    requires FittingRun(o, trace, ops) && k < |trace| && DistinctParticipants(d.participants) && Abs(d) == trace[k]
    ensures ValidDurable(d) && DurableFits(d) && DurableWrites(d)
    ensures TransitionsMeetDemand(d) <==> DemandMet(o, d)
    ensures |o.provenance| >= 4 ==> DemandMet(o, d)
  {
    hide Inv, IsRun, OpFits, StateFits, ToMap, DistinctParticipants, ValidDurable, DurableFits, DurableWrites, BootsUnique, TextFits, DemandMet, TransitionsMeetDemand, ViableOptions;
    RunsKeepInvariant(o, trace, ops, k);
    RunsFit(o, trace, ops, k);
    FitsDurable(o, d);
    FitsWrites(d);
    AcceptsIff(o, d);
    FitsStamped(o, d);
    DemandMetIff(o, d);
  }

  /** The image of the state decodes to the state. */
  predicate ReadsBack(d: DurableState) {
    EncodedState(d).Ok? && DecodeState(EncodedState(d).value) == Ok(d)
  }

  lemma ReadsBackIff(d: DurableState)
    requires ValidDurable(d)
    ensures ReadsBack(d) <==> Readable(d)
  {
    hide ValidDurable, DurableFits, DurableWrites, EncodePayload, DecodeState, TransitionsMeetDemand;
    if DurableFits(d) {
      FitsWrites(d);
    }
    if EncodedState(d).Ok? {
      StateRoundTripIff(d);
    }
  }

  /** Durability of reachable states: the encoder refuses none but for its size, and its image is read
      back exactly when four bytes a transition are to be had from the provenance and the control
      attempts, and the payload is within the limit. Four bytes of provenance settle the former. */
  lemma ReachableReadableIff(o: Options, trace: seq<State>, ops: seq<Op>, k: nat, d: DurableState)
    requires FittingRun(o, trace, ops) && k < |trace| && DistinctParticipants(d.participants) && Abs(d) == trace[k]
    ensures EncodedState(d).Ok? <==> |EncodePayload(d)| < 0x1_0000_0000
    ensures ReadsBack(d) <==> DemandMet(o, d) && |EncodePayload(d)| <= MAX_PAYLOAD
    ensures |o.provenance| >= 4 ==> DemandMet(o, d)
  {
    hide FittingRun, ToMap, DistinctParticipants, ValidDurable, DurableFits, DurableWrites, EncodePayload, ReadsBack, DemandMet, TransitionsMeetDemand;
    ReachedFits(o, trace, ops, k, d);
    ReadsBackIff(d);
  }

  lemma FitsStamped(o: Options, d: DurableState)
    requires DistinctParticipants(d.participants) && StateFits(o, Abs(d))
    ensures Stamped(o, d.transitions)
  {
    hide ToMap, DistinctParticipants;
  }
}
