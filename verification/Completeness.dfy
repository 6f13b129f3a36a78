/** The validator seldom stands in the way: a save refuses only a registration that made a boot live
    that another participant already holds, and a retirement that a stale index misled. */
module Completeness {
  import opened Basics
  import opened Model
  import opened Forest
  import opened Authority
  import opened Invariant
  import opened Preservation
  import opened Batch
  import opened Stale
  import opened Retirement
  import opened Runs
  import opened Canonical
  import opened Validator

  /** No participant appears and no allocator moves. */
  predicate SameAllocators(s: State, s': State) {
    && s'.participants.Keys == s.participants.Keys
    && forall id :: id in s.participants ==> s'.participants[id].nextIncarnation == s.participants[id].nextIncarnation
  }

  /** Going forward without issuing a sequence makes no boot live. */
  lemma NoNewBoot(o: Options, s: State, s': State, id: ParticipantId, b: Id)
    requires Inv(o, s') && Forward(s, s') && SameAllocators(s, s')
    requires id in s'.participants && BootLive(s'.participants[id], b)
    ensures BootLive(s.participants[id], b)
  {
    hide Inv, FindIncarnation;
    var p, p' := s.participants[id], s'.participants[id];
    KnownLiveOk(o, s', id);
    FindsLive(p', b);
    var q := FindIncarnation(p', b).value;
    assert IsLive(p', b, q) && IsLive(p, b, q);
  }

  lemma KeepsBootsUnique(o: Options, s: State, s': State)
    requires Inv(o, s') && Forward(s, s') && SameAllocators(s, s') && BootsUnique(s)
    ensures BootsUnique(s')
  {
    hide Inv, Forward, BootLive;
    forall i, j, b | i in s'.participants && j in s'.participants && i != j
      ensures !(BootLive(s'.participants[i], b) && BootLive(s'.participants[j], b))
    {
      if BootLive(s'.participants[i], b) && BootLive(s'.participants[j], b) {
        NoNewBoot(o, s, s', i, b);
        NoNewBoot(o, s, s', j, b);
      }
    }
  }

  // ---- operations that do not register ----------------------------------

  lemma FenceFrameSameAllocators(s: State, s': State, id: ParticipantId)
    requires FenceFrame(s, s', id)
    ensures SameAllocators(s, s')
  {
  }

  lemma {:induction false} FenceEachSameAllocators(o: Options, s: State, id: ParticipantId, boots: seq<Id>, note: Bytes)
    ensures var step := FenceEach(o, s, id, boots, note); step.Done? ==> SameAllocators(s, step.state)
  {
    hide RecordFence;
    if boots != [] {
      FenceEachSameAllocators(o, s, id, boots[..|boots| - 1], note);
      var before := FenceEach(o, s, id, boots[..|boots| - 1], note);
      if before.Done? {
        RecordFenceFrame(o, before.state, id, boots[|boots| - 1], AdministrativeRevoke, note, false);
      }
    }
  }

  lemma FenceWorkerSameAllocators(o: Options, s: State, req: FenceRequest)
    ensures var step := FenceWorker(o, s, req); step.Done? ==> SameAllocators(s, step.state)
  {
    hide RecordFence, FindAttempt, Remember;
    RecordFenceFrame(o, s, req.participant, req.boot, req.reason, req.note, true);
  }

  lemma RetireSameAllocators(o: Options, s: State, req: RetireRequest)
    ensures var step := Retire(o, s, req); step.Done? ==> SameAllocators(s, step.state)
  {
    hide FenceEach, FindAttempt, Remember, LiveBoots;
    if req.participant in s.participants {
      FenceEachSameAllocators(o, s, req.participant, LiveBoots(s.participants[req.participant]), req.note);
    }
  }

  predicate IsRegistration(op: Op) {
    op.DoRegister? || op.DoBatch?
  }

  lemma OtherStepsSameAllocators(o: Options, s: State, op: Op)
    requires !IsRegistration(op) && Apply(o, s, op).Some?
    ensures SameAllocators(s, Apply(o, s, op).value)
  {
    hide FenceWorker, RecordFence, Retire, FindAttempt, Evaluate, MayDelegate, Remember, IndexOf, RevokeSubtree, NewlyRevoked;
    match op
    case DoFence(req) => FenceWorkerSameAllocators(o, s, req);
    case DoLoseSession(id, boot, reason) => RecordFenceFrame(o, s, id, boot, FenceReasonFor(reason), [], false);
    case DoRetire(req) => RetireSameAllocators(o, s, req);
    case DoGrant(req, id) =>
    case DoRevoke(req) =>
    case DoAdvance(req, t) =>
    case DoReopen(boot, t) =>
  }

  /** Everything but registration keeps boots unique unaided. */
  lemma OtherStepsKeepBootsUnique(o: Options, s: State, op: Op)
    requires ViableOptions(o) && Inv(o, s) && s.epoch != 0 && BootsUnique(s)
    requires !IsRegistration(op) && FreshFor(s, op) && Apply(o, s, op).Some?
    ensures Inv(o, Apply(o, s, op).value) && BootsUnique(Apply(o, s, op).value)
  {
    hide Inv, Forward, SameAllocators, BootsUnique, Apply;
    var s' := Apply(o, s, op).value;
    OtherStepAdvances(o, s, op);
    OtherStepsSameAllocators(o, s, op);
    KeepsBootsUnique(o, s, s');
  }

  lemma OtherStepAdvances(o: Options, s: State, op: Op)
    requires ViableOptions(o) && Inv(o, s) && s.epoch != 0
    requires !IsRegistration(op) && FreshFor(s, op) && Apply(o, s, op).Some?
    ensures Inv(o, Apply(o, s, op).value) && Forward(s, Apply(o, s, op).value)
  {
    hide Inv, Forward, Register, RegisterBatch, FenceWorker, LoseSession, Retire, GrantAuthority, RevokeAuthority, AdvanceEpoch, Reopen, FreshGrantId, FreshTransitionId;
    match op
    case DoFence(req) =>
      FenceWorkerKeeps(o, s, req);
      FenceRequestAdvances(o, s, req);
    case DoLoseSession(id, boot, reason) =>
      LoseSessionKeeps(o, s, id, boot, reason);
      LosingAdvances(o, s, id, boot, reason);
    case DoRetire(req) =>
      RetireKeeps(o, s, req);
      RetiringAdvances(o, s, req);
    case DoGrant(req, id) =>
      GrantKeeps(o, s, req, id);
      GrantingAdvances(o, s, req, id);
    case DoRevoke(req) =>
      RevokeKeeps(o, s, req);
      RevokingAdvances(o, s, req);
    case DoAdvance(req, t) =>
      AdvanceKeeps(o, s, req, t);
      AdvanceAdvances(o, s, req, t);
    case DoReopen(boot, t) =>
      ReopenKeeps(o, s, boot, t);
      ReopenAdvances(o, s, boot, t);
  }

  // ---- registration ------------------------------------------------------

  /** Another participant holds this boot. */
  predicate HeldElsewhere(s: State, id: ParticipantId, boot: Id) {
    exists k :: k in s.participants && k != id && BootLive(s.participants[k], boot)
  }

  lemma EnrolBoots(o: Options, s: State, req: RegisterRequest, commit: bool)
    requires BootsUnique(s)
    requires ParticipantOrFresh(s, req).nextIncarnation < U64_MAX && s.registrationFloor < U64_MAX
    requires commit ==> s.generation < U64_MAX
    ensures BootsUnique(Enrol(o, s, req, commit)) <==> !HeldElsewhere(s, req.participant, req.boot)
  {
    hide BootLive, Enrolled, IsLive;
    var p, s' := ParticipantOrFresh(s, req), Enrol(o, s, req, commit);
    var id := req.participant;
    EnrolledFacts(o, p, req, s.registrationFloor + 1);
    FreshHasNoLive(s, req);
    assert BootLive(s'.participants[id], req.boot);
    if HeldElsewhere(s, id, req.boot) {
      var k :| k in s.participants && k != id && BootLive(s.participants[k], req.boot);
      assert s'.participants[k] == s.participants[k];
    } else {
      forall i, j, b | i in s'.participants && j in s'.participants && i != j
        ensures !(BootLive(s'.participants[i], b) && BootLive(s'.participants[j], b))
      {
        assert i != id ==> s'.participants[i] == s.participants[i];
        assert j != id ==> s'.participants[j] == s.participants[j];
        assert i == id ==> (BootLive(s'.participants[i], b) <==> BootLive(p, b) || b == req.boot);
        assert j == id ==> (BootLive(s'.participants[j], b) <==> BootLive(p, b) || b == req.boot);
      }
    }
  }

  /** Fencing this participant's incumbent does not change what the others hold. */
  lemma HeldElsewhereFramed(s: State, s': State, id: ParticipantId, boot: Id)
    requires FenceFrame(s, s', id)
    ensures HeldElsewhere(s', id, boot) <==> HeldElsewhere(s, id, boot)
  {
    hide BootLive;
    forall k | k in s.participants && k != id
      ensures s'.participants[k] == s.participants[k]
    {
    }
  }

  /** A registration keeps boots unique exactly when it is not accepted, or its boot is not
      live under another participant. */
  lemma RegisterBootsIff(o: Options, s: State, req: RegisterRequest, commit: bool)
    requires ViableOptions(o) && Inv(o, s) && BootsUnique(s) && Register(o, s, req, commit).Done?
    ensures var step := Register(o, s, req, commit);
            && Inv(o, step.state)
            && (BootsUnique(step.state) <==>
                !(step.mutated && step.result.outcome == Registered && HeldElsewhere(s, req.participant, req.boot)))
  {
    hide Inv, Screen, RecordFence, Enrol, BootsUnique, HeldElsewhere, FenceFrame, Workers, Forward, SameAllocators;
    RegisterKeeps(o, s, req, commit);
    var step := Register(o, s, req, commit);
    match Screen(o, s, req)
    case Refuse(_) =>
    case Admit =>
      if step.mutated {
        EnrolBoots(o, s, req, commit);
      }
    case Replace(incumbent) =>
      var fence := RecordFence(o, s, req.participant, incumbent, Reincarnation, [], false);
      ReplacedIsAdmissible(o, s, req, fence.state);
      FencingAdvances(o, s, req.participant, incumbent, Reincarnation, [], false);
      RecordFenceFrame(o, s, req.participant, incumbent, Reincarnation, [], false);
      FenceFrameSameAllocators(s, fence.state, req.participant);
      KeepsBootsUnique(o, s, fence.state);
      HeldElsewhereFramed(s, fence.state, req.participant, req.boot);
      if step.mutated && step.result.outcome == Registered {
        EnrolBoots(o, fence.state, req, commit);
      }
  }

  // ---- what a save refuses -----------------------------------------------

  /** The batch accepts an element whose boot another participant holds by then. */
  ghost predicate Clashes(o: Options, s: State, reqs: seq<RegisterRequest>, k: nat)
    requires k < |reqs|
  {
    var before := RegisterEach(o, s, reqs[..k], false);
    before.Done? && RegistrationClashes(o, before.state, reqs[k], false)
  }

  ghost predicate RegistrationClashes(o: Options, s: State, req: RegisterRequest, commit: bool) {
    var step := Register(o, s, req, commit);
    step.Done? && step.mutated && step.result.outcome == Registered && HeldElsewhere(s, req.participant, req.boot)
  }

  ghost predicate BatchClashes(o: Options, s: State, reqs: seq<RegisterRequest>) {
    exists k :: 0 <= k < |reqs| && Clashes(o, s, reqs, k)
  }

  /** Without replacement nothing leaves the live sets, so a shared boot stays shared. */
  lemma SharedStaysShared(o: Options, s: State, req: RegisterRequest)
    requires o.replacement == RequireExplicitFence && Register(o, s, req, false).Done? && !BootsUnique(s)
    ensures !BootsUnique(Register(o, s, req, false).state)
  {
    hide Screen, BootLive, Enrolled, IsLive, Workers;
    ScreenRefusals(o, s, req);
    var step := Register(o, s, req, false);
    if step.state != s {
      var p := ParticipantOrFresh(s, req);
      EnrolledFacts(o, p, req, s.registrationFloor + 1);
      var i, j, b :| i in s.participants && j in s.participants && i != j && BootLive(s.participants[i], b) && BootLive(s.participants[j], b);
      assert BootLive(step.state.participants[i], b) && BootLive(step.state.participants[j], b);
    }
  }

  lemma {:induction false} BatchBootsIff(o: Options, s: State, reqs: seq<RegisterRequest>)
    requires ViableOptions(o) && Inv(o, s) && BootsUnique(s) && o.replacement == RequireExplicitFence
    requires RegisterEach(o, s, reqs, false).Done?
    ensures BootsUnique(RegisterEach(o, s, reqs, false).state) <==> !BatchClashes(o, s, reqs)
  {
    hide Inv, Register, BootsUnique, HeldElsewhere;
    if reqs != [] {
      var last := |reqs| - 1;
      var init := reqs[..last];
      assert forall k :: 0 <= k < last ==> init[..k] == reqs[..k] && init[k] == reqs[k];
      assert forall k :: 0 <= k < last ==> Clashes(o, s, init, k) == Clashes(o, s, reqs, k);
      BatchBootsIff(o, s, init);
      RegisterEachKeeps(o, s, init);
      var before := RegisterEach(o, s, init, false);
      assert Clashes(o, s, reqs, last) == RegistrationClashes(o, before.state, reqs[last], false);
      if BootsUnique(before.state) {
        RegisterBootsIff(o, before.state, reqs[last], false);
      } else {
        SharedStaysShared(o, before.state, reqs[last]);
      }
    }
  }

  lemma SameLiveUniqueness(s: State, g: U64)
    ensures BootsUnique(s.(generation := g)) <==> BootsUnique(s)
  {
  }

  /** A participant retired and alive is what the validator refuses. */
  lemma RetiredAliveRefused(d: DurableState, id: ParticipantId)
    requires DistinctParticipants(d.participants) && RetiredAlive(Abs(d), id)
    ensures !ValidDurable(d)
  {
    hide WithinCeilings, ValidTransitions, ValidFences, ValidGrants, ValidControl, ToMap;
    ToMapFacts(d.participants);
    var p := ToMap(d.participants)[id];
    var i :| 0 <= i < |d.participants| && d.participants[i] == p;
    assert !ValidParticipant(d, d.participants[i]);
  }

  /** When a save refuses what the operation did. */
  ghost predicate SaveRefused(o: Options, s: State, op: Op) {
    match op
    case DoRegister(req) => RegistrationClashes(o, s, req, true)
    case DoBatch(reqs) => BatchClashes(o, s, reqs)
    case DoRetire(req) => Retires(s, req) && RetireMisjudged(o, s, req.participant)
    case _ => false
  }

  /** Validator completeness, for one operation as the runtime performs it: from a valid state, the
      validator accepts the vector of every successor, except that of a registration whose boot
      another participant holds, and that of a retirement misled by its index. */
  lemma SaveRefusesOnly(o: Options, s: State, op: Op, d: DurableState)
    requires ViableOptions(o) && Inv(o, s) && s.epoch != 0 && BootsUnique(s)
    requires FreshFor(s, op) && Perform(o, s, op).Some? && (op.DoBatch? ==> o.replacement == RequireExplicitFence)
    requires DistinctParticipants(d.participants) && Abs(d) == Perform(o, s, op).value
    ensures ValidDurable(d) <==> !SaveRefused(o, s, op)
  {
    hide Inv, Apply, Perform, BootsUnique, ValidDurable, ToMap, FreshFor, Forward, SaveRefused, EpochClears;
    if op.DoRetire? && Retires(s, op.retire) && RetireMisjudged(o, s, op.retire.participant) {
      MisjudgedIsRefused(o, s, op, d);
    } else {
      PerformsApply(o, s, op);
      UniqueUnlessRefused(o, s, op);
      OperationKeeps(o, s, op, Abs(d));
      EpochKept(s, Abs(d));
      AcceptsIff(o, d);
    }
  }

  lemma MisjudgedIsRefused(o: Options, s: State, op: Op, d: DurableState)
    requires ViableOptions(o) && Inv(o, s) && op.DoRetire? && Retires(s, op.retire) && RetireMisjudged(o, s, op.retire.participant)
    requires DistinctParticipants(d.participants) && Perform(o, s, op) == Some(Abs(d))
    ensures !ValidDurable(d) && SaveRefused(o, s, op)
  {
    hide Inv, RetireThrough, Retires, RetireMisjudged, RetiredAlive, ValidDurable, ToMap;
    MisjudgedRetirement(o, s, op.retire);
    RetiredAliveRefused(d, op.retire.participant);
  }

  lemma PerformsApply(o: Options, s: State, op: Op)
    requires ViableOptions(o) && Inv(o, s) && (op.DoBatch? ==> o.replacement == RequireExplicitFence)
    requires op.DoRetire? && Retires(s, op.retire) ==> !RetireMisjudged(o, s, op.retire.participant)
    ensures Perform(o, s, op) == Apply(o, s, op)
  {
    hide Inv, RegisterBatch, RegisterBatchThrough, Retire, RetireThrough, RetireMisjudged, Retires, BatchJudged;
    match op
    case DoBatch(reqs) =>
      ExplicitIsJudged(o, s, reqs);
      JudgedBatch(o, s, reqs);
    case DoRetire(req) => JudgedRetirement(o, s, req);
    case _ =>
  }

  lemma UniqueUnlessRefused(o: Options, s: State, op: Op)
    requires ViableOptions(o) && Inv(o, s) && s.epoch != 0 && BootsUnique(s)
    requires FreshFor(s, op) && Apply(o, s, op).Some? && (op.DoBatch? ==> o.replacement == RequireExplicitFence)
    requires op.DoRetire? ==> !(Retires(s, op.retire) && RetireMisjudged(o, s, op.retire.participant))
    ensures BootsUnique(Apply(o, s, op).value) <==> !SaveRefused(o, s, op)
  {
    hide Inv, BootsUnique, FreshFor, Register, RegisterEach, Retires, RetireMisjudged, HeldElsewhere, BatchClashes;
    if op.DoRegister? {
      RegisterBootsIff(o, s, op.register, true);
    } else if op.DoBatch? {
      BatchBootsIff(o, s, op.batch);
      var each := RegisterEach(o, s, op.batch, false);
      SameLiveUniqueness(each.state, Apply(o, s, op).value.generation);
    } else {
      OtherStepsKeepBootsUnique(o, s, op);
    }
  }

  lemma EpochKept(s: State, s': State)
    requires Forward(s, s') && s.epoch != 0
    ensures s'.epoch != 0
  {
  }
}
