/** Whole runs of the engine: operations and restarts in any order, each saved before the
    next begins. An operation whose save fails ends the process; what follows is a restart. Fences
    are looked up as the runtime does it, through the index filed by the last save; a batch that
    replaces incumbents takes part if none of its elements is misjudged (`Stale.BatchThroughIff`). */
module Runs {
  import opened Basics
  import opened Model
  import opened Forest
  import opened Authority
  import opened Invariant
  import opened Preservation
  import opened Batch
  import opened Stale
  import opened Retirement

  datatype Op =
    | DoRegister(register: RegisterRequest)
    | DoBatch(batch: seq<RegisterRequest>)
    | DoFence(fence: FenceRequest)
    | DoLoseSession(participant: ParticipantId, boot: Id, reason: ClosureReason)
    | DoRetire(retire: RetireRequest)
    | DoGrant(grant: GrantRequest, grantId: Id)
    | DoRevoke(revoke: RevokeRequest)
    | DoAdvance(advance: AdvanceRequest, transition: Id)
    | DoReopen(coordinatorBoot: Id, transition: Id)

  /** Where a step leads, forgetting its answer; None when it throws. */
  function After<R>(step: Step<R>): Option<State> {
    if step.Done? then Some(step.state) else None
  }

  ghost function Apply(o: Options, s: State, op: Op): Option<State> {
    match op
    case DoRegister(req) => After(Register(o, s, req, true))
    case DoBatch(reqs) => After(RegisterBatch(o, s, reqs))
    case DoFence(req) => After(FenceWorker(o, s, req))
    case DoLoseSession(id, boot, reason) => After(LoseSession(o, s, id, boot, reason))
    case DoRetire(req) => After(Retire(o, s, req))
    case DoGrant(req, id) => After(GrantAuthority(o, s, req, id))
    case DoRevoke(req) => After(RevokeAuthority(o, s, req))
    case DoAdvance(req, t) => After(AdvanceEpoch(o, s, req, t))
    case DoReopen(boot, t) => After(Reopen(o, s, boot, t))
  }

  /** Identifiers generated for the operation are fresh and not nil. */
  predicate FreshFor(s: State, op: Op) {
    match op
    case DoGrant(_, id) => FreshGrantId(s, id)
    case DoAdvance(_, t) => FreshTransitionId(s, t)
    case DoReopen(_, t) => FreshTransitionId(s, t)
    case _ => true
  }

  /** No boot is live under two participants: what saving a state insists on. */
  ghost predicate BootsUnique(s: State) {
    forall i, j, b :: i in s.participants && j in s.participants && i != j ==>
      !(BootLive(s.participants[i], b) && BootLive(s.participants[j], b))
  }

  /** What the runtime does: as `Apply`, but a batch and a retirement look every fence up through
      the index they began with. */
  ghost function Perform(o: Options, s: State, op: Op): Option<State> {
    match op
    case DoBatch(reqs) => After(RegisterBatchThrough(o, s, reqs))
    case DoRetire(req) => After(RetireThrough(o, s, req))
    case _ => Apply(o, s, op)
  }

  /** What the validator insists on that an operation can fail: boots live once, and no retired
      participant alive. */
  ghost predicate Saveable(s: State) {
    BootsUnique(s) && forall id :: id in s.participants ==> !RetiredAlive(s, id)
  }

  ghost predicate Judged(o: Options, s: State, op: Op) {
    op.DoBatch? ==> BatchJudged(o, s, op.batch)
  }

  ghost predicate Follows(o: Options, s: State, op: Op, s': State) {
    FreshFor(s, op) && Judged(o, s, op) && Perform(o, s, op) == Some(s') && (s' == s || Saveable(s'))
  }

  /** In a valid state, a step whose result is saved or changes nothing is the abstract operation: a
      misjudged retirement would have left its participant retired and alive. */
  lemma FollowsApplies(o: Options, s: State, op: Op, s': State)
    requires ViableOptions(o) && Inv(o, s) && Follows(o, s, op, s')
    ensures Apply(o, s, op) == Some(s')
  {
    hide Inv, BootsUnique, FreshFor, BatchJudged, RegisterBatch, RegisterBatchThrough, Retire, RetireThrough, RetireMisjudged, Retires;
    match op
    case DoBatch(reqs) => JudgedBatch(o, s, reqs);
    case DoRetire(req) =>
      if Retires(s, req) && RetireMisjudged(o, s, req.participant) {
        MisjudgedRetirement(o, s, req);
        KnownLiveOk(o, s, req.participant);
        assert false;
      } else {
        JudgedRetirement(o, s, req);
      }
    case _ =>
  }

  ghost predicate Opened(o: Options, s: State) {
    exists boot, t :: FreshTransitionId(PRISTINE, t) && Reopen(o, PRISTINE, boot, t).Done? && Reopen(o, PRISTINE, boot, t).state == s
  }

  ghost predicate IsRun(o: Options, trace: seq<State>, ops: seq<Op>) {
    && |trace| == |ops| + 1
    && Opened(o, trace[0])
    && forall i :: 0 <= i < |ops| ==> Follows(o, trace[i], ops[i], trace[i + 1])
  }

  // ---- what one step can do ----------------------------------------------

  /** The allocator never goes back, and nothing becomes live under a sequence it had
      already issued. */
  ghost predicate Advances(p: Participant, p': Participant) {
    && p'.nextIncarnation >= p.nextIncarnation
    && forall b: Id, q: U64 :: IsLive(p', b, q) ==> IsLive(p, b, q) || q >= p.nextIncarnation
  }

  ghost predicate Forward(s: State, s': State) {
    && s'.epoch >= s.epoch && s'.generation >= s.generation
    && s'.registrationFloor >= s.registrationFloor && s'.fenceFloor >= s.fenceFloor
    && s.participants.Keys <= s'.participants.Keys
    && (forall id :: id in s.participants ==> Advances(s.participants[id], s'.participants[id]))
  }

  /** A step that changes the epoch leaves nothing live; one that does not is a single
      epoch's work. */
  ghost predicate EpochClears(s: State, s': State) {
    s'.epoch > s.epoch ==> forall id, b: Id, q: U64 :: id in s'.participants ==> !IsLive(s'.participants[id], b, q)
  }

  lemma AdvancesTransitive(p: Participant, p': Participant, p'': Participant)
    requires Advances(p, p') && Advances(p', p'')
    ensures Advances(p, p'')
  {
  }

  lemma ForwardTransitive(s: State, s': State, s'': State)
    requires Forward(s, s') && Forward(s', s'')
    ensures Forward(s, s'')
  {
    hide Advances;
    forall id | id in s.participants
      ensures Advances(s.participants[id], s''.participants[id])
    {
      AdvancesTransitive(s.participants[id], s'.participants[id], s''.participants[id]);
    }
  }

  lemma ForwardItself(s: State)
    ensures Forward(s, s)
  {
  }

  /** One participant replaced by a record that advances, floors not lowered. */
  lemma ForwardByReplacing(s: State, s': State, p': Participant)
    requires s'.participants == s.participants[p'.id := p']
    requires p'.id in s.participants ==> Advances(s.participants[p'.id], p')
    requires s'.epoch == s.epoch && s'.generation >= s.generation
    requires s'.registrationFloor >= s.registrationFloor && s'.fenceFloor >= s.fenceFloor
    ensures Forward(s, s')
  {
    hide IsLive;
  }

  lemma FencingAdvances(o: Options, s: State, id: ParticipantId, boot: Id, reason: FenceReason, note: Bytes, defensive: bool)
    requires ViableOptions(o) && Inv(o, s)
    ensures var step := RecordFence(o, s, id, boot, reason, note, defensive);
            step.Done? ==> Forward(s, step.state) && step.state.epoch == s.epoch
  {
    hide Inv, LookupFence, FindIncarnation, LiveFence, PreventiveFence, Forward;
    ForwardItself(s);
    if id in s.participants && s.fenceFloor < U64_MAX && s.generation < U64_MAX {
      if FindIncarnation(s.participants[id], boot).Some? {
        LiveFenceAdvances(o, s, id, boot, reason, note);
      }
      PreventiveFenceAdvances(o, s, id, boot, reason, note);
    }
  }

  lemma LiveFenceAdvances(o: Options, s: State, id: ParticipantId, boot: Id, reason: FenceReason, note: Bytes)
    requires ViableOptions(o) && Inv(o, s) && id in s.participants && s.fenceFloor < U64_MAX && s.generation < U64_MAX
    requires FindIncarnation(s.participants[id], boot).Some?
    ensures var s' := LiveFence(o, s, id, boot, FindIncarnation(s.participants[id], boot).value, reason, note);
            Forward(s, s') && s'.epoch == s.epoch
  {
    hide Inv, FindIncarnation, BootLive, IsLive, Remember, Forward, RemoveLive;
    var p := s.participants[id];
    KnownParticipantOk(o, s, id);
    FindsLive(p, boot);
    RemoveLiveFacts(p, boot);
    var sequence := FindIncarnation(p, boot).value;
    RemoveLiveFrame(o, p, boot, sequence, s.fenceFloor + 1);
    FencedAdvances(o, p, boot, sequence, s.fenceFloor + 1);
    var s' := LiveFence(o, s, id, boot, sequence, reason, note);
    ForwardByReplacing(s, s', s'.participants[id]);
  }

  lemma PreventiveFenceAdvances(o: Options, s: State, id: ParticipantId, boot: Id, reason: FenceReason, note: Bytes)
    requires Inv(o, s) && id in s.participants && s.fenceFloor < U64_MAX && s.generation < U64_MAX
    ensures var s' := PreventiveFence(s, id, boot, reason, note); Forward(s, s') && s'.epoch == s.epoch
  {
    hide Inv, Forward;
    KnownParticipantOk(o, s, id);
    var s' := PreventiveFence(s, id, boot, reason, note);
    SameLiveAdvances(s.participants[id], s'.participants[id]);
    ForwardByReplacing(s, s', s'.participants[id]);
  }

  lemma FencedAdvances(o: Options, p: Participant, boot: Id, sequence: U64, g: U64)
    requires LiveOk(p) && BootLive(p, boot)
    ensures Advances(p, FencedParticipant(o, p, boot, sequence, g))
  {
    RemoveLiveFacts(p, boot);
    var p' := FencedParticipant(o, p, boot, sequence, g);
    assert forall b: Id, q: U64 :: IsLive(p', b, q) == IsLive(RemoveLive(p, boot), b, q);
  }

  /** Records that differ only outside the live set and the allocator advance. */
  lemma SameLiveAdvances(p: Participant, p': Participant)
    requires p'.hasActiveBoot == p.hasActiveBoot && p'.activeBoot == p.activeBoot && p'.activeIncarnation == p.activeIncarnation
    requires p'.extras == p.extras && p'.nextIncarnation == p.nextIncarnation
    ensures Advances(p, p')
  {
  }

  lemma RememberingAdvances(o: Options, s: State, id: ParticipantId, record: AttemptRecord)
    requires ParticipantsOk(o, s) && id in s.participants
    ensures Forward(s, RememberFor(o, s, id, record))
  {
    hide ParticipantOk, Advances, Forward;
    var s' := RememberFor(o, s, id, record);
    SameLiveAdvances(s.participants[id], s'.participants[id]);
    ForwardByReplacing(s, s', s'.participants[id]);
  }

  lemma EnrollingAdvances(o: Options, s: State, req: RegisterRequest, commit: bool, mutated: bool)
    requires Inv(o, s)
    ensures var step := EnrolWithinLimits(o, s, req, commit, mutated);
            step.Done? ==> Forward(s, step.state) && step.state.epoch == s.epoch
  {
    hide Inv, IsLive, Forward, Enrolled;
    ForwardItself(s);
    var p := ParticipantOrFresh(s, req);
    if s.registrationFloor < U64_MAX && p.nextIncarnation < U64_MAX && (commit ==> s.generation < U64_MAX) {
      var s' := Enrol(o, s, req, commit);
      EnrolledFacts(o, p, req, s.registrationFloor + 1);
      EnrolledFrame(o, p, req, s.registrationFloor + 1);
      if req.participant in s.participants {
        KnownParticipantOk(o, s, req.participant);
      }
      ForwardByReplacing(s, s', s'.participants[req.participant]);
    }
  }

  lemma EnrolledFrame(o: Options, p: Participant, req: RegisterRequest, g: U64)
    requires p.nextIncarnation < U64_MAX
    ensures Enrolled(o, p, req, g).id == p.id && Enrolled(o, p, req, g).nextIncarnation == p.nextIncarnation + 1
  {
  }

  lemma RegisteringAdvances(o: Options, s: State, req: RegisterRequest, commit: bool)
    requires ViableOptions(o) && Inv(o, s)
    ensures var step := Register(o, s, req, commit);
            step.Done? ==> Forward(s, step.state) && step.state.epoch == s.epoch
  {
    hide Inv, Screen, RecordFence, EnrolWithinLimits, Forward;
    ForwardItself(s);
    match Screen(o, s, req)
    case Refuse(_) =>
    case Admit =>
      EnrollingAdvances(o, s, req, commit, false);
    case Replace(incumbent) =>
      var fence := RecordFence(o, s, req.participant, incumbent, Reincarnation, [], false);
      if fence.Done? {
        FencingAdvances(o, s, req.participant, incumbent, Reincarnation, [], false);
        ReplacedIsAdmissible(o, s, req, fence.state);
        EnrollingAdvances(o, fence.state, req, commit, fence.mutated);
        ForwardItself(fence.state);
        var step := Register(o, s, req, commit);
        if step.Done? {
          ForwardTransitive(s, fence.state, step.state);
        }
      }
  }

  lemma {:induction false} BatchAdvances(o: Options, s: State, reqs: seq<RegisterRequest>)
    requires ViableOptions(o) && Inv(o, s)
    ensures var step := RegisterEach(o, s, reqs, false);
            step.Done? ==> Forward(s, step.state) && step.state.epoch == s.epoch
  {
    hide Inv, Register, Forward;
    if reqs == [] {
      ForwardItself(s);
    } else {
      var init, last := reqs[..|reqs| - 1], reqs[|reqs| - 1];
      BatchAdvances(o, s, init);
      RegisterEachKeeps(o, s, init);
      var before := RegisterEach(o, s, init, false);
      if before.Done? {
        RegisteringAdvances(o, before.state, last, false);
        var step := Register(o, before.state, last, false);
        if step.Done? {
          ForwardTransitive(s, before.state, step.state);
        }
      }
    }
  }

  lemma GenerationAdvances(s: State, g: U64)
    requires g >= s.generation
    ensures Forward(s, At(s, g))
  {
  }

  lemma {:induction false} FenceEachAdvances(o: Options, s: State, id: ParticipantId, boots: seq<Id>, note: Bytes)
    requires ViableOptions(o) && Inv(o, s) && id in s.participants && DistinctIds(boots)
    requires forall i :: 0 <= i < |boots| ==> BootLive(s.participants[id], boots[i])
    ensures var step := FenceEach(o, s, id, boots, note);
            step.Done? ==> Forward(s, step.state) && step.state.epoch == s.epoch
  {
    hide Inv, RecordFence, Forward, BootLive;
    if boots == [] {
      ForwardItself(s);
    } else {
      var init, last := boots[..|boots| - 1], boots[|boots| - 1];
      FenceEachAdvances(o, s, id, init, note);
      FenceEachKeeps(o, s, id, init, note);
      var before := FenceEach(o, s, id, init, note);
      if before.Done? {
        FencingAdvances(o, before.state, id, last, AdministrativeRevoke, note, false);
        var step := RecordFence(o, before.state, id, last, AdministrativeRevoke, note, false);
        if step.Done? {
          ForwardTransitive(s, before.state, step.state);
        }
      }
    }
  }

  lemma RetiringAdvances(o: Options, s: State, req: RetireRequest)
    requires ViableOptions(o) && Inv(o, s)
    ensures var step := Retire(o, s, req);
            step.Done? ==> Forward(s, step.state) && step.state.epoch == s.epoch
  {
    hide Inv, FenceEach, Forward, FindAttempt, LiveOk, BootLive, LiveBoots, RetiredParticipantRecord;
    ForwardItself(s);
    var id := req.participant;
    if id in s.participants {
      var p := s.participants[id];
      KnownLiveOk(o, s, id);
      LiveBootsAreLive(p);
      FenceEachAdvances(o, s, id, LiveBoots(p), req.note);
      FenceEachKeeps(o, s, id, LiveBoots(p), req.note);
      var fenced := FenceEach(o, s, id, LiveBoots(p), req.note);
      if fenced.Done? && fenced.state.generation < U64_MAX {
        var record := AttemptRecord(req.attempt, RetireKind, o.digest(Retiring(req)), 0, fenced.result % (U64_MAX + 1), 0, NIL);
        var s' := CloseAllocator(o, fenced.state, id, record);
        KnownParticipantOk(o, fenced.state, id);
        ClosingAdvances(o, fenced.state.participants[id], record);
        ForwardByReplacing(fenced.state, s', s'.participants[id]);
        ForwardTransitive(s, fenced.state, s');
      }
    }
  }

  lemma ClosingAdvances(o: Options, p: Participant, record: AttemptRecord)
    ensures var p' := RetiredParticipantRecord(o, p, record); p'.id == p.id && Advances(p, p')
  {
    SameLiveAdvances(p, RetiredParticipantRecord(o, p, record));
  }

  lemma FenceRequestAdvances(o: Options, s: State, req: FenceRequest)
    requires ViableOptions(o) && Inv(o, s)
    ensures var step := FenceWorker(o, s, req);
            step.Done? ==> Forward(s, step.state) && step.state.epoch == s.epoch
  {
    hide Inv, RecordFence, RememberFor, FindAttempt, Forward, ParticipantsOk;
    ForwardItself(s);
    var step := FenceWorker(o, s, req);
    var id := req.participant;
    if req.boot != NIL {
      RecordFenceKeeps(o, s, id, req.boot, req.reason, req.note, true);
    }
    if step.Done? && step.mutated {
      FencingAdvances(o, s, id, req.boot, req.reason, req.note, true);
      RecordFenceFrame(o, s, id, req.boot, req.reason, req.note, true);
      var fence := RecordFence(o, s, id, req.boot, req.reason, req.note, true);
      AllParticipantsOk(o, fence.state);
      var digest := o.digest(Fencing(req));
      var record := AttemptRecord(req.attempt, FenceKind, digest, FenceCode(fence.result.outcome),
                                  if fence.result.fenceGeneration.Some? then fence.result.fenceGeneration.value else 0,
                                  if fence.result.incarnation.Some? then fence.result.incarnation.value else 0, NIL);
      RememberingAdvances(o, fence.state, id, record);
      RememberForFrame(o, fence.state, id, record);
      ForwardTransitive(s, fence.state, step.state);
    }
  }

  lemma AllParticipantsOk(o: Options, s: State)
    requires Inv(o, s)
    ensures ParticipantsOk(o, s)
  {
  }

  lemma RememberForFrame(o: Options, s: State, id: ParticipantId, record: AttemptRecord)
    requires id in s.participants
    ensures RememberFor(o, s, id, record).epoch == s.epoch
  {
  }

  lemma GrantingAdvances(o: Options, s: State, req: GrantRequest, id: Id)
    requires Inv(o, s)
    ensures var step := GrantAuthority(o, s, req, id);
            step.Done? ==> Forward(s, step.state) && step.state.epoch == s.epoch
  {
    hide FindAttempt, Evaluate, MayDelegate, ScopesWithin, Forward, NewGrant, ParticipantOk, FencesOk, GrantsOk, TransitionsOk, ControlOk, SumsOk;
    ForwardItself(s);
    var step := GrantAuthority(o, s, req, id);
    if step.Done? && step.mutated {
      var p := s.participants[req.participant];
      var p' := step.state.participants[req.participant];
      SameLiveAdvances(p, p');
      ForwardByReplacing(s, step.state, p');
    }
  }

  lemma RevokingAdvances(o: Options, s: State, req: RevokeRequest)
    ensures var step := RevokeAuthority(o, s, req);
            step.Done? ==> Forward(s, step.state) && step.state.epoch == s.epoch
  {
    hide FindAttempt, NewlyRevoked, RevokeSubtree, IndexOf, Remember, Forward;
    ForwardItself(s);
    var step := RevokeAuthority(o, s, req);
    if step.Done? {
      SameParticipantsForward(s, step.state);
    }
  }

  lemma SameParticipantsForward(s: State, s': State)
    requires s'.participants == s.participants && s'.epoch == s.epoch && s'.generation >= s.generation
    requires s'.registrationFloor == s.registrationFloor && s'.fenceFloor == s.fenceFloor
    ensures Forward(s, s')
  {
  }

  lemma EpochChangeAdvances(o: Options, s: State, boot: Id, cause: TransitionCause, transition: Id)
    requires s.epoch < U64_MAX && s.generation < U64_MAX
    ensures var s' := MutateEpoch(o, s, boot, cause, true, transition); Forward(s, s') && EpochClears(s, s')
    ensures s.participants == map[] ==>
              (var s' := MutateEpoch(o, s, boot, cause, false, transition); Forward(s, s') && EpochClears(s, s'))
  {
    hide Remember;
  }

  lemma ForwardSameLive(s: State, s': State, s'': State)
    requires Forward(s, s') && EpochClears(s, s')
    requires s''.participants == s'.participants && s''.epoch == s'.epoch && s''.generation == s'.generation
    requires s''.registrationFloor == s'.registrationFloor && s''.fenceFloor == s'.fenceFloor
    ensures Forward(s, s'') && EpochClears(s, s'')
  {
    hide Advances, IsLive;
  }

  lemma AdvanceAdvances(o: Options, s: State, req: AdvanceRequest, transition: Id)
    ensures var step := AdvanceEpoch(o, s, req, transition);
            step.Done? ==> Forward(s, step.state) && EpochClears(s, step.state)
  {
    hide FindAttempt, MutateEpoch, Forward, Remember;
    ForwardItself(s);
    var step := AdvanceEpoch(o, s, req, transition);
    if step.Done? && step.mutated {
      EpochChangeAdvances(o, s, s.coordinatorBoot, req.cause, transition);
      ForwardSameLive(s, MutateEpoch(o, s, s.coordinatorBoot, req.cause, true, transition), step.state);
    }
  }

  lemma ReopenAdvances(o: Options, s: State, boot: Id, transition: Id)
    requires s.epoch != 0
    ensures var step := Reopen(o, s, boot, transition);
            step.Done? ==> Forward(s, step.state) && EpochClears(s, step.state) && step.state.epoch == s.epoch + 1
  {
    hide Forward, EpochClears, InvalidateAll;
    if s.epoch < U64_MAX && s.generation < U64_MAX {
      EpochChangeAdvances(o, s, boot, CoordinatorRestart, transition);
    }
  }

  /** Every single step keeps the invariant, moves forward, and is one epoch's work. */
  lemma StepKeeps(o: Options, s: State, op: Op, s': State)
    requires ViableOptions(o) && Inv(o, s) && s.epoch != 0 && Follows(o, s, op, s')
    ensures Inv(o, s') && Forward(s, s') && EpochClears(s, s')
    ensures BootsUnique(s) ==> BootsUnique(s')
  {
    hide Inv, Forward, EpochClears, BootsUnique, Apply, FreshFor, Perform, Judged;
    FollowsApplies(o, s, op, s');
    OperationKeeps(o, s, op, s');
  }

  lemma OperationKeeps(o: Options, s: State, op: Op, s': State)
    requires ViableOptions(o) && Inv(o, s) && s.epoch != 0 && FreshFor(s, op) && Apply(o, s, op) == Some(s')
    ensures Inv(o, s') && Forward(s, s') && EpochClears(s, s')
  {
    hide Inv, Forward, Register, RegisterBatch, FenceWorker, LoseSession, Retire, GrantAuthority, RevokeAuthority, AdvanceEpoch, Reopen, FreshGrantId, FreshTransitionId;
    match op
    case DoRegister(req) =>
      RegisterKeeps(o, s, req, true);
      RegisteringAdvances(o, s, req, true);
    case DoBatch(reqs) =>
      BatchKeeps(o, s, reqs);
      BatchStepAdvances(o, s, reqs);
    case DoFence(req) =>
      FenceWorkerKeeps(o, s, req);
      FenceRequestAdvances(o, s, req);
    case DoLoseSession(id, boot, reason) =>
      LoseSessionKeeps(o, s, id, boot, reason);
      LosingAdvances(o, s, id, boot, reason);
    case DoRetire(req) =>
      RetireKeeps(o, s, req);
      RetiringAdvances(o, s, req);
    case DoGrant(req, id) =>
      GrantKeeps(o, s, req, id);
      GrantingAdvances(o, s, req, id);
    case DoRevoke(req) =>
      RevokeKeeps(o, s, req);
      RevokingAdvances(o, s, req);
    case DoAdvance(req, t) =>
      AdvanceKeeps(o, s, req, t);
      AdvanceAdvances(o, s, req, t);
    case DoReopen(boot, t) =>
      ReopenKeeps(o, s, boot, t);
      ReopenAdvances(o, s, boot, t);
  }

  lemma BatchStepAdvances(o: Options, s: State, reqs: seq<RegisterRequest>)
    requires ViableOptions(o) && Inv(o, s)
    ensures var step := RegisterBatch(o, s, reqs);
            step.Done? ==> Forward(s, step.state) && step.state.epoch == s.epoch
  {
    hide Inv, RegisterEach, Forward;
    BatchAdvances(o, s, reqs);
    var step := RegisterEach(o, s, reqs, false);
    if step.Done? && step.state.generation < U64_MAX {
      GenerationAdvances(step.state, step.state.generation + 1);
      ForwardTransitive(s, step.state, At(step.state, step.state.generation + 1));
    }
  }

  lemma LosingAdvances(o: Options, s: State, id: ParticipantId, boot: Id, reason: ClosureReason)
    requires ViableOptions(o) && Inv(o, s)
    ensures var step := LoseSession(o, s, id, boot, reason);
            step.Done? ==> Forward(s, step.state) && step.state.epoch == s.epoch
  {
    hide Inv, RecordFence, Forward, FindIncarnation;
    ForwardItself(s);
    FencingAdvances(o, s, id, boot, FenceReasonFor(reason), [], false);
  }

  // ---- whole runs --------------------------------------------------------

  lemma OpenedIsOk(o: Options, s: State)
    requires ViableOptions(o) && Opened(o, s)
    ensures Inv(o, s) && s.epoch == 1 && BootsUnique(s) && s.participants == map[]
  {
    var boot, t :| FreshTransitionId(PRISTINE, t) && Reopen(o, PRISTINE, boot, t).Done? && Reopen(o, PRISTINE, boot, t).state == s;
    PristineIsOk(o);
    ReopenKeeps(o, PRISTINE, boot, t);
  }

  /** Every state of every run satisfies the invariant, and no boot ever holds two lives. */
  lemma {:induction false} RunsKeepInvariant(o: Options, trace: seq<State>, ops: seq<Op>, k: nat)
    requires ViableOptions(o) && IsRun(o, trace, ops) && k < |trace|
    ensures Inv(o, trace[k]) && BootsUnique(trace[k]) && trace[k].epoch >= 1
    decreases k
  {
    hide Inv, Opened, BootsUnique, Follows;
    if k == 0 {
      OpenedIsOk(o, trace[0]);
    } else {
      RunsKeepInvariant(o, trace, ops, k - 1);
      StepKeeps(o, trace[k - 1], ops[k - 1], trace[k]);
      ForwardEpoch(trace[k - 1], trace[k]);
    }
  }

  lemma ForwardEpoch(s: State, s': State)
    requires Forward(s, s')
    ensures s'.epoch >= s.epoch && s'.generation >= s.generation
    ensures s'.registrationFloor >= s.registrationFloor && s'.fenceFloor >= s.fenceFloor
  {
  }

  /** Counters, floors and the set of known participants only grow along a run. */
  lemma {:induction false} RunsGoForward(o: Options, trace: seq<State>, ops: seq<Op>, j: nat, k: nat)
    requires ViableOptions(o) && IsRun(o, trace, ops) && j <= k < |trace|
    ensures Forward(trace[j], trace[k])
    decreases k
  {
    hide Inv, Opened, BootsUnique, Follows, Forward;
    if j == k {
      ForwardItself(trace[j]);
    } else {
      RunsGoForward(o, trace, ops, j, k - 1);
      RunsKeepInvariant(o, trace, ops, k - 1);
      StepKeeps(o, trace[k - 1], ops[k - 1], trace[k]);
      ForwardTransitive(trace[j], trace[k - 1], trace[k]);
    }
  }

  // ---- dead stays dead ---------------------------------------------------

  /** Whose incarnation a presented token stands for: the owner of the named grant, or
      the participant the token itself names. */
  function Holder(s: State, req: ValidateRequest): Option<ParticipantId> {
    if req.grant.Some? then
      var i := IndexOf(s.grants, req.grant.value);
      if i.Some? then Some(s.grants[i.value].participant) else None
    else Some(req.token.participant)
  }

  predicate LiveIn(s: State, id: ParticipantId, boot: Id, sequence: U64) {
    id in s.participants && IsLive(s.participants[id], boot, sequence)
  }

  /** Whichever path is taken, Current means: that very incarnation is in the holder's
      live set. */
  lemma CurrentMeansLive(s: State, req: ValidateRequest)
    ensures Validate(s, req).code == Current ==>
              Holder(s, req).Some? && LiveIn(s, Holder(s, req).value, req.token.boot, req.token.incarnation)
  {
    hide LookupFence, FindIncarnation, IsLive, IndexOf;
  }

  lemma {:induction false} StaysDead(o: Options, trace: seq<State>, ops: seq<Op>, i: nat, j: nat, k: nat, id: ParticipantId, boot: Id, sequence: U64)
    requires ViableOptions(o) && IsRun(o, trace, ops) && i <= j <= k < |trace|
    requires LiveIn(trace[i], id, boot, sequence) && !LiveIn(trace[j], id, boot, sequence)
    ensures id in trace[k].participants && !LiveIn(trace[k], id, boot, sequence)
    ensures sequence < trace[k].participants[id].nextIncarnation
    decreases k
  {
    hide Inv, Opened, BootsUnique, Follows, IsLive, IsRun;
    if k == j {
      RunsKeepInvariant(o, trace, ops, i);
      RunsGoForward(o, trace, ops, i, j);
      IssuedBelow(o, trace[i], id, boot, sequence);
    } else {
      StaysDead(o, trace, ops, i, j, k - 1, id, boot, sequence);
      RunsGoForward(o, trace, ops, k - 1, k);
    }
  }

  lemma IssuedBelow(o: Options, s: State, id: ParticipantId, boot: Id, sequence: U64)
    requires Inv(o, s) && LiveIn(s, id, boot, sequence)
    ensures sequence < s.participants[id].nextIncarnation
  {
    KnownLiveOk(o, s, id);
  }

  /** Dead stays dead. Once an incarnation has left the live set, by whatever step, no later
      state of the run validates it, on the token path or the grant path, for any scope: not
      after its fence record and ring entry are pruned, and not after its boot identifier
      has been registered again. */
  lemma DeadStaysDead(o: Options, trace: seq<State>, ops: seq<Op>, i: nat, j: nat, k: nat,
                      id: ParticipantId, boot: Id, sequence: U64, req: ValidateRequest)
    requires ViableOptions(o) && IsRun(o, trace, ops) && i <= j <= k < |trace|
    requires LiveIn(trace[i], id, boot, sequence) && !LiveIn(trace[j], id, boot, sequence)
    requires Holder(trace[k], req) == Some(id) && req.token.boot == boot && req.token.incarnation == sequence
    ensures Validate(trace[k], req).code != Current
  {
    hide IsRun, Validate, LiveIn, Holder;
    StaysDead(o, trace, ops, i, j, k, id, boot, sequence);
    CurrentMeansLive(trace[k], req);
  }

  /** Live authority never crosses an epoch: an incarnation live at two points of a run was
      live under one and the same epoch. */
  lemma {:induction false} LiveWithinOneEpoch(o: Options, trace: seq<State>, ops: seq<Op>, i: nat, k: nat, id: ParticipantId, boot: Id, sequence: U64)
    requires ViableOptions(o) && IsRun(o, trace, ops) && i <= k < |trace|
    requires LiveIn(trace[i], id, boot, sequence) && LiveIn(trace[k], id, boot, sequence)
    ensures trace[i].epoch == trace[k].epoch
    decreases k
  {
    hide Inv, Opened, BootsUnique, Follows, IsLive, Advances;
    if i < k {
      if !LiveIn(trace[k - 1], id, boot, sequence) {
        StaysDead(o, trace, ops, i, k - 1, k, id, boot, sequence);
      }
      LiveWithinOneEpoch(o, trace, ops, i, k - 1, id, boot, sequence);
      RunsKeepInvariant(o, trace, ops, k - 1);
      StepKeeps(o, trace[k - 1], ops[k - 1], trace[k]);
    }
  }

  // ---- what Current means ------------------------------------------------

  /** Exactly when a token is current: right epoch, that incarnation live, scope registered,
      and the expected generation, if any, up to date. */
  lemma TokenCurrentIff(o: Options, s: State, req: ValidateRequest)
    requires Inv(o, s) && req.grant.None?
    ensures Validate(s, req).code == Current <==>
              && req.token.boot != NIL && req.token.incarnation != 0
              && req.token.epoch == s.epoch
              && LiveIn(s, req.token.participant, req.token.boot, req.token.incarnation)
              && var p := s.participants[req.token.participant];
                 req.scope in p.scopes
                 && (req.expectedGeneration.Some? ==> req.expectedGeneration.value == p.registrationGeneration)
  {
    hide FencesOk, GrantsOk, TransitionsOk, ControlOk, SumsOk, RingOk, CountersOk, TableOk, LookupFence, FindIncarnation;
    var id := req.token.participant;
    if id in s.participants {
      KnownLiveOk(o, s, id);
      LiveIsFound(s.participants[id], req.token.boot, req.token.incarnation);
      LiveNotRetired(s.participants[id], req.token.boot, req.token.incarnation);
    }
  }

  lemma LiveNotRetired(p: Participant, boot: Id, sequence: U64)
    requires LiveOk(p)
    ensures IsLive(p, boot, sequence) ==> !p.retired
  {
  }

  /** Delegation attenuates authority: when a grant validates, every grant it descends from
      is unrevoked, belongs to the current epoch, and covers the very scope asked for. */
  lemma AncestorsOfCurrentGrant(o: Options, trace: seq<State>, ops: seq<Op>, k: nat, req: ValidateRequest, i: nat, t: nat)
    requires ViableOptions(o) && IsRun(o, trace, ops) && k < |trace|
    requires req.grant.Some? && Validate(trace[k], req).code == Current
    requires IndexOf(trace[k].grants, req.grant.value) == Some(i)
    requires t < |trace[k].grants| && Descends(trace[k].grants, i, t)
    ensures var ancestor := trace[k].grants[t];
            !ancestor.revoked && ancestor.epoch == trace[k].epoch && req.scope in ancestor.scopes
  {
    hide ParticipantsOk, FencesOk, TransitionsOk, ControlOk, SumsOk, IsRun, Evaluate, IsForest;
    RunsKeepInvariant(o, trace, ops, k);
    AncestorsCover(trace[k].grants, i, t);
  }
}
