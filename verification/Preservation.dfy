/** Every authority operation keeps the engine invariant. */
module Preservation {
  import opened Basics
  import opened Model
  import opened Forest
  import opened Authority
  import opened Invariant

  // ---- fencing -----------------------------------------------------------

  lemma FencedParticipantOk(o: Options, s: State, p: Participant, boot: Id, sequence: U64, g: U64)
    requires ViableOptions(o) && ParticipantOk(o, p, s.registrationFloor, s.fenceFloor)
    requires FindIncarnation(p, boot) == Some(sequence) && boot !in p.fencedBoots && s.fenceFloor <= g
    ensures ParticipantOk(o, FencedParticipant(o, p, boot, sequence, g), s.registrationFloor, g)
    ensures forall b :: BootLive(FencedParticipant(o, p, boot, sequence, g), b) <==> BootLive(p, b) && b != boot
    ensures LiveCount(FencedParticipant(o, p, boot, sequence, g)) == LiveCount(p) - 1
  {
    FindsLive(p, boot);
    RemoveLiveFacts(p, boot);
    var q := RemoveLive(p, boot);
    var r := FencedParticipant(o, p, boot, sequence, g);
    assert forall b :: BootLive(r, b) <==> BootLive(q, b);
    assert boot != NIL && sequence < p.nextIncarnation;
    RememberKeepsOrder(p.fencedBoots, o.limits.maxFencedBoots, boot);
    assert LiveOk(r);
    assert RingOk(o, r);
  }

  lemma LiveFenceParts(o: Options, s: State, id: ParticipantId, boot: Id, sequence: U64, reason: FenceReason, note: Bytes)
    requires ViableOptions(o) && ParticipantsOk(o, s) && FencesOk(s) && |s.fences| <= o.limits.maxRecentFences
    requires id in s.participants && s.fenceFloor < U64_MAX && s.generation < U64_MAX
    requires FindIncarnation(s.participants[id], boot) == Some(sequence) && !LookupFence(s, id, boot).fenced
    ensures var s' := LiveFence(o, s, id, boot, sequence, reason, note);
            && FencesOk(s') && |s'.fences| <= o.limits.maxRecentFences && Recorded(s'.fences, id, boot)
            && ParticipantOk(o, s'.participants[id], s'.registrationFloor, s'.fenceFloor)
            && s'.participants[id].id == id
            && Accepted(s'.participants[id]) == Accepted(s.participants[id])
            && LiveCount(s'.participants[id]) == LiveCount(s.participants[id]) - 1
            && forall b :: BootLive(s'.participants[id], b) <==> BootLive(s.participants[id], b) && b != boot
  {
    hide ParticipantOk, LiveOk, RingOk, CountersOk, TableOk;
    var s' := LiveFence(o, s, id, boot, sequence, reason, note);
    var p := s.participants[id];
    FencedParticipantOk(o, s, p, boot, sequence, s'.fenceFloor);
    BootOfLive(o, s, id, boot);
    var f := s'.fences[|s'.fences| - 1];
    RememberKeepsOrder(s.fences, o.limits.maxRecentFences, f);
    AppendKeepsFences(s, s', |s.fences| + 1 - |s'.fences|, f);
  }

  lemma BootOfLive(o: Options, s: State, id: ParticipantId, boot: Id)
    requires ParticipantsOk(o, s) && id in s.participants && FindIncarnation(s.participants[id], boot).Some?
    ensures boot != NIL && BootLive(s.participants[id], boot)
  {
    FindsLive(s.participants[id], boot);
  }

  lemma LiveFenceKeeps(o: Options, s: State, id: ParticipantId, boot: Id, sequence: U64, reason: FenceReason, note: Bytes)
    requires ViableOptions(o) && Inv(o, s)
    requires id in s.participants && s.fenceFloor < U64_MAX && s.generation < U64_MAX
    requires FindIncarnation(s.participants[id], boot) == Some(sequence) && !LookupFence(s, id, boot).fenced
    ensures var s' := LiveFence(o, s, id, boot, sequence, reason, note);
            && Inv(o, s') && Recorded(s'.fences, id, boot)
            && id in s'.participants
            && forall b :: BootLive(s'.participants[id], b) <==> BootLive(s.participants[id], b) && b != boot
  {
    hide ParticipantsOk, ParticipantOk, FencesOk, GrantsOk, TransitionsOk, ControlOk, FencedParticipant, FindIncarnation, LookupFence, BootLive;
    var s' := LiveFence(o, s, id, boot, sequence, reason, note);
    var p' := s'.participants[id];
    LiveFenceParts(o, s, id, boot, sequence, reason, note);
    ReplaceKeepsParticipants(o, s, s', p');
    ReplaceKeepsSums(o, s, s', p');
    UntouchedHistories(o, s, s');
  }

  lemma PreventiveFenceParts(o: Options, s: State, id: ParticipantId, boot: Id, reason: FenceReason, note: Bytes)
    requires ParticipantsOk(o, s) && FencesOk(s) && boot != NIL
    requires id in s.participants && s.fenceFloor < U64_MAX && s.generation < U64_MAX
    requires FindIncarnation(s.participants[id], boot).None? && !LookupFence(s, id, boot).fenced
    ensures var s' := PreventiveFence(s, id, boot, reason, note);
            && FencesOk(s') && s'.participants[id].id == id
            && ParticipantOk(o, s'.participants[id], s'.registrationFloor, s'.fenceFloor)
  {
    hide LiveOk, TableOk;
    var s' := PreventiveFence(s, id, boot, reason, note);
    var p, p' := s.participants[id], s'.participants[id];
    FindsLive(p, boot);
    SameLiveSet(o, p, p');
    AppendKeepsFences(s, s', 0, s'.fences[|s.fences|]);
  }

  /** Fields outside the live set and the ring do not affect them. */
  lemma SameLiveSet(o: Options, p: Participant, p': Participant)
    requires p'.hasActiveBoot == p.hasActiveBoot && p'.activeBoot == p.activeBoot && p'.activeIncarnation == p.activeIncarnation
    requires p'.extras == p.extras && p'.nextIncarnation == p.nextIncarnation && p'.policy == p.policy && p'.retired == p.retired
    requires p'.fencedBoots == p.fencedBoots
    ensures LiveOk(p') == LiveOk(p) && RingOk(o, p') == RingOk(o, p) && LiveCount(p') == LiveCount(p)
    ensures forall b :: BootLive(p', b) == BootLive(p, b)
  {
  }

  lemma PreventiveFenceKeeps(o: Options, s: State, id: ParticipantId, boot: Id, reason: FenceReason, note: Bytes)
    requires ViableOptions(o) && Inv(o, s) && boot != NIL
    requires id in s.participants && s.fenceFloor < U64_MAX && s.generation < U64_MAX
    requires FindIncarnation(s.participants[id], boot).None? && !LookupFence(s, id, boot).fenced
    requires |s.fences| < o.limits.maxRecentFences
    ensures Inv(o, PreventiveFence(s, id, boot, reason, note))
    ensures id in PreventiveFence(s, id, boot, reason, note).participants
  {
    hide ParticipantsOk, ParticipantOk, FencesOk, GrantsOk, TransitionsOk, ControlOk, FindIncarnation, LookupFence;
    var s' := PreventiveFence(s, id, boot, reason, note);
    var p' := s'.participants[id];
    PreventiveFenceParts(o, s, id, boot, reason, note);
    ReplaceKeepsParticipants(o, s, s', p');
    ReplaceKeepsSums(o, s, s', p');
    UntouchedHistories(o, s, s');
  }

  /** Fencing answers "fenced" with a new generation exactly when it recorded something. */
  lemma RecordFenceKeeps(o: Options, s: State, id: ParticipantId, boot: Id, reason: FenceReason, note: Bytes, defensive: bool)
    requires ViableOptions(o) && Inv(o, s) && boot != NIL
    ensures var step := RecordFence(o, s, id, boot, reason, note, defensive);
            step.Done? ==>
              && Inv(o, step.state)
              && (step.mutated <==> step.result.outcome == FenceDone)
              && (!step.mutated ==> step.state == s)
  {
    hide Inv, FindIncarnation, LookupFence, LiveFence, PreventiveFence;
    if id in s.participants && !LookupFence(s, id, boot).fenced && s.fenceFloor < U64_MAX && s.generation < U64_MAX {
      var sequence := FindIncarnation(s.participants[id], boot);
      if sequence.Some? {
        LiveFenceKeeps(o, s, id, boot, sequence.value, reason, note);
      } else if defensive && |s.fences| < o.limits.maxRecentFences {
        PreventiveFenceKeeps(o, s, id, boot, reason, note);
      }
    }
  }

  /** A live boot is never retained as fenced. */
  lemma LiveIsNotFenced(o: Options, s: State, id: ParticipantId, boot: Id)
    requires Inv(o, s) && id in s.participants && BootLive(s.participants[id], boot)
    ensures boot != NIL && !LookupFence(s, id, boot).fenced
  {
    var p := s.participants[id];
    assert ParticipantOk(o, p, s.registrationFloor, s.fenceFloor);
    forall i | 0 <= i < |s.fences|
      ensures s.fences[i].boot != boot || s.fences[i].participant != id
    {
      assert FenceOk(s, s.fences[i]);
    }
  }

  /** So fencing a live boot always takes effect: short of counter exhaustion it is
      recorded and exactly that boot leaves the live set. */
  lemma FencingALiveBootWorks(o: Options, s: State, id: ParticipantId, boot: Id, reason: FenceReason, note: Bytes, defensive: bool)
    requires ViableOptions(o) && Inv(o, s) && id in s.participants && BootLive(s.participants[id], boot)
    ensures var step := RecordFence(o, s, id, boot, reason, note, defensive);
            if s.fenceFloor == U64_MAX || s.generation == U64_MAX then step.Threw?
            else
              && step.Done? && step.result.outcome == FenceDone && step.mutated
              && id in step.state.participants
              && (forall b :: BootLive(step.state.participants[id], b) <==> BootLive(s.participants[id], b) && b != boot)
              && Recorded(step.state.fences, id, boot)
  {
    hide Inv, FindIncarnation, LookupFence, BootLive, Recorded, LiveFence;
    LiveIsNotFenced(o, s, id, boot);
    FindsLive(s.participants[id], boot);
    if s.fenceFloor < U64_MAX && s.generation < U64_MAX {
      LiveFenceKeeps(o, s, id, boot, FindIncarnation(s.participants[id], boot).value, reason, note);
    }
  }

  // ---- attempt tables ----------------------------------------------------

  lemma RememberForKeeps(o: Options, s: State, id: ParticipantId, record: AttemptRecord)
    requires ViableOptions(o) && Inv(o, s) && id in s.participants
    requires record.attempt != NIL && FindAttempt(s.participants[id].idempotency, record.attempt).None?
    ensures Inv(o, RememberFor(o, s, id, record))
  {
    hide FencesOk, GrantsOk, TransitionsOk, ControlOk, LiveOk, RingOk, TableOk, BootLive;
    var s' := RememberFor(o, s, id, record);
    var p := s.participants[id];
    SameLiveSet(o, p, s'.participants[id]);
    RememberKeepsTable(p.idempotency, o.limits.maxIdempotencyRecords, record);
    ReplaceKeepsParticipants(o, s, s', s'.participants[id]);
    ReplaceKeepsFences(o, s, s', s'.participants[id]);
    ReplaceKeepsSums(o, s, s', s'.participants[id]);
    UntouchedHistories(o, s, s');
  }

  // ---- registration ------------------------------------------------------

  /** What the screening establishes about a participant whose registration it admits. */
  predicate Admissible(o: Options, s: State, req: RegisterRequest) {
    && req.attempt != NIL && req.participant.text != [] && req.boot != NIL
    && var p := ParticipantOrFresh(s, req);
    && !p.retired && p.policy == req.policy
    && !BootLive(p, req.boot) && req.boot !in p.fencedBoots && !Recorded(s.fences, req.participant, req.boot)
    && (p.policy == SingleIncarnation ==> !HasCurrent(p))
    && FindAttempt(p.idempotency, req.attempt).None?
    && (req.participant !in s.participants ==> |s.participants| < o.limits.maxParticipants)
  }

  /** One more live incarnation: exactly the requested boot, with the next sequence. */
  lemma EnrolledFacts(o: Options, p: Participant, req: RegisterRequest, g: U64)
    requires p.nextIncarnation < U64_MAX
    ensures var p' := Enrolled(o, p, req, g);
            && LiveCount(p') == LiveCount(p) + 1
            && (forall b :: BootLive(p', b) <==> BootLive(p, b) || b == req.boot)
            && (forall b, q :: IsLive(p', b, q) <==> IsLive(p, b, q) || (b == req.boot && q == p.nextIncarnation))
  {
    var p' := Enrolled(o, p, req, g);
    if p.hasActiveBoot {
      var e := ActiveIncarnation(req.boot, p.nextIncarnation, g);
      assert p'.extras == p.extras + [e];
      assert forall i :: 0 <= i < |p.extras| ==> p'.extras[i] == p.extras[i];
      assert p'.extras[|p.extras|] == e;
      assert forall b :: AmongExtras(p.extras, b) ==> AmongExtras(p'.extras, b);
      assert forall b, q :: HoldsExtra(p.extras, b, q) ==> HoldsExtra(p'.extras, b, q);
    }
  }

  lemma EnrolledOk(o: Options, p: Participant, req: RegisterRequest, registrationFloor: U64, fenceFloor: U64)
    requires ViableOptions(o) && ParticipantOk(o, p, registrationFloor, fenceFloor)
    requires p.nextIncarnation < U64_MAX && registrationFloor < U64_MAX
    requires req.attempt != NIL && req.boot != NIL && !p.retired && p.policy == req.policy
    requires !BootLive(p, req.boot) && req.boot !in p.fencedBoots && (p.policy == SingleIncarnation ==> !HasCurrent(p))
    requires FindAttempt(p.idempotency, req.attempt).None?
    ensures ParticipantOk(o, Enrolled(o, p, req, registrationFloor + 1), registrationFloor + 1, fenceFloor)
    ensures Accepted(Enrolled(o, p, req, registrationFloor + 1)) == Accepted(p) + 1
  {
    hide TableOk;
    var g := registrationFloor + 1;
    var p' := Enrolled(o, p, req, g);
    EnrolledFacts(o, p, req, g);
    RememberKeepsTable(p.idempotency, o.limits.maxIdempotencyRecords, RegistrationRecord(o, req, g, p.nextIncarnation));
    assert LiveOk(p') by {
      assert forall i :: 0 <= i < |p.extras| ==> AmongExtras(p.extras, p.extras[i].boot);
    }
  }

  lemma FreshIsOk(o: Options, s: State, req: RegisterRequest)
    requires ParticipantsOk(o, s) && FencesOk(s) && req.participant.text != []
    ensures var p := ParticipantOrFresh(s, req);
            && ParticipantOk(o, p, s.registrationFloor, s.fenceFloor) && p.id == req.participant
    ensures req.participant !in s.participants ==>
              (var p := ParticipantOrFresh(s, req); LiveCount(p) == 0 && Accepted(p) == 0)
              && forall b :: !Recorded(s.fences, req.participant, b)
  {
    if req.participant !in s.participants {
      forall i | 0 <= i < |s.fences|
        ensures s.fences[i].participant != req.participant
      {
        assert FenceOk(s, s.fences[i]);
      }
    }
  }

  lemma EnrolKeeps(o: Options, s: State, req: RegisterRequest, commit: bool)
    requires ViableOptions(o) && Inv(o, s) && Admissible(o, s, req)
    requires ParticipantOrFresh(s, req).nextIncarnation < U64_MAX && s.registrationFloor < U64_MAX
    requires commit ==> s.generation < U64_MAX
    requires Workers(s) < o.limits.maxActiveWorkers
    ensures Inv(o, Enrol(o, s, req, commit))
  {
    hide ParticipantsOk, ParticipantOk, FencesOk, GrantsOk, TransitionsOk, ControlOk, Enrolled, Recorded, BootLive;
    var s' := Enrol(o, s, req, commit);
    var p := ParticipantOrFresh(s, req);
    FreshIsOk(o, s, req);
    var p' := s'.participants[req.participant];
    EnrolledOk(o, p, req, s.registrationFloor, s.fenceFloor);
    EnrolledFacts(o, p, req, s'.registrationFloor);
    EnrolKeepsFences(o, s, req, commit);
    ReplaceKeepsParticipants(o, s, s', p');
    ReplaceKeepsSums(o, s, s', p');
    UntouchedHistories(o, s, s');
  }

  lemma EnrolKeepsFences(o: Options, s: State, req: RegisterRequest, commit: bool)
    requires ParticipantsOk(o, s) && FencesOk(s) && Admissible(o, s, req)
    requires ParticipantOrFresh(s, req).nextIncarnation < U64_MAX && s.registrationFloor < U64_MAX
    requires commit ==> s.generation < U64_MAX
    ensures FencesOk(Enrol(o, s, req, commit))
    ensures Enrolled(o, ParticipantOrFresh(s, req), req, s.registrationFloor + 1).id == req.participant
  {
    hide ParticipantOk, FencesOk, BootLive, Recorded;
    var s' := Enrol(o, s, req, commit);
    FreshIsOk(o, s, req);
    EnrolledFacts(o, ParticipantOrFresh(s, req), req, s.registrationFloor + 1);
    FreshHasNoLive(s, req);
    ReplaceKeepsFences(o, s, s', s'.participants[req.participant]);
  }

  lemma FreshHasNoLive(s: State, req: RegisterRequest)
    ensures req.participant !in s.participants ==> forall b :: !BootLive(ParticipantOrFresh(s, req), b)
  {
  }

  lemma AdmittedIsAdmissible(o: Options, s: State, req: RegisterRequest)
    requires Inv(o, s) && Screen(o, s, req).Admit?
    ensures Admissible(o, s, req)
  {
    hide ParticipantsOk, ParticipantOk, FencesOk, BootLive, FindIncarnation, Recorded;
    FreshIsOk(o, s, req);
    FreshHasNoLive(s, req);
    FindsLive(ParticipantOrFresh(s, req), req.boot);
  }

  /** Once the incumbent is fenced, the replacement is admissible. */
  lemma ReplacedIsAdmissible(o: Options, s: State, req: RegisterRequest, s1: State)
    requires ViableOptions(o) && Inv(o, s) && Screen(o, s, req).Replace?
    requires var step := RecordFence(o, s, req.participant, Screen(o, s, req).incumbent, Reincarnation, [], false);
             step.Done? && s1 == step.state
    ensures Admissible(o, s1, req) && Inv(o, s1)
  {
    hide Inv, LookupFence, Recorded, BootLive, LiveOk, RingOk, TableOk, FindIncarnation;
    var p := s.participants[req.participant];
    var incumbent := Screen(o, s, req).incumbent;
    IncumbentFacts(o, s, req);
    LiveIsNotFenced(o, s, req.participant, incumbent);
    FindsLive(p, incumbent);
    FindsLive(p, req.boot);
    var sequence := FindIncarnation(p, incumbent).value;
    LiveFenceKeeps(o, s, req.participant, incumbent, sequence, Reincarnation, []);
    FencedElsewhere(o, s, req.participant, incumbent, sequence, req.boot);
  }

  lemma IncumbentFacts(o: Options, s: State, req: RegisterRequest)
    requires Inv(o, s) && Screen(o, s, req).Replace?
    ensures req.participant in s.participants
    ensures var p := s.participants[req.participant];
            && p.hasActiveBoot && p.extras == [] && p.activeBoot == Screen(o, s, req).incumbent
            && BootLive(p, p.activeBoot) && p.activeBoot != req.boot
            && !BootLive(p, req.boot)
  {
    hide FencesOk, GrantsOk, TransitionsOk, ControlOk, SumsOk, RingOk, CountersOk, TableOk;
    FindsLive(s.participants[req.participant], req.boot);
  }

  /** Fencing one boot of a single-incarnation participant fences no other. */
  lemma FencedElsewhere(o: Options, s: State, id: ParticipantId, boot: Id, sequence: U64, other: Id)
    requires id in s.participants && s.fenceFloor < U64_MAX && s.generation < U64_MAX
    requires var p := s.participants[id]; p.hasActiveBoot && p.extras == [] && p.activeBoot == boot
    requires other != boot && !LookupFence(s, id, other).fenced
    ensures var s1 := LiveFence(o, s, id, boot, sequence, Reincarnation, []);
            && !Recorded(s1.fences, id, other)
            && other !in s1.participants[id].fencedBoots
            && !HasCurrent(s1.participants[id])
            && s1.participants[id].idempotency == s.participants[id].idempotency
  {
    var s1 := LiveFence(o, s, id, boot, sequence, Reincarnation, []);
    var d := |s.fences| + 1 - |s1.fences|;
    assert forall i :: 0 <= i < |s1.fences| - 1 ==> s1.fences[i] == s.fences[i + d];
  }

  lemma EnrolWithinLimitsKeeps(o: Options, s: State, req: RegisterRequest, commit: bool, mutated: bool)
    requires ViableOptions(o) && Inv(o, s) && Admissible(o, s, req)
    ensures var step := EnrolWithinLimits(o, s, req, commit, mutated); step.Done? ==> Inv(o, step.state)
  {
    hide Inv, Admissible, Enrol;
    var p := ParticipantOrFresh(s, req);
    if Workers(s) < o.limits.maxActiveWorkers && s.registrationFloor < U64_MAX && p.nextIncarnation < U64_MAX
       && (commit ==> s.generation < U64_MAX) {
      EnrolKeeps(o, s, req, commit);
    }
  }

  lemma RegisterKeeps(o: Options, s: State, req: RegisterRequest, commit: bool)
    requires ViableOptions(o) && Inv(o, s)
    ensures var step := Register(o, s, req, commit); step.Done? ==> Inv(o, step.state)
  {
    hide Inv, Screen, RecordFence, EnrolWithinLimits, Admissible;
    match Screen(o, s, req)
    case Refuse(_) =>
    case Admit =>
      AdmittedIsAdmissible(o, s, req);
      EnrolWithinLimitsKeeps(o, s, req, commit, false);
    case Replace(incumbent) =>
      var step := RecordFence(o, s, req.participant, incumbent, Reincarnation, [], false);
      if step.Done? {
        ReplacedIsAdmissible(o, s, req, step.state);
        EnrolWithinLimitsKeeps(o, step.state, req, commit, step.mutated);
      }
  }

  // ---- operator fences and lost sessions ---------------------------------

  /** Everything about a participant that fencing one of its boots leaves alone. */
  predicate SameButFences(p: Participant, p': Participant) {
    && p'.id == p.id && p'.idempotency == p.idempotency && p'.nextIncarnation == p.nextIncarnation
    && p'.acceptedRegistrations == p.acceptedRegistrations && p'.policy == p.policy && p'.retired == p.retired
    && p'.scopes == p.scopes && p'.registrationGeneration == p.registrationGeneration
    && p'.revalidationRequired == p.revalidationRequired
  }

  /** A fence touches neither attempt tables nor allocators, and one participant at most. */
  predicate FenceFrame(s: State, s': State, id: ParticipantId) {
    && s'.epoch == s.epoch && s'.coordinatorBoot == s.coordinatorBoot && s'.registrationFloor == s.registrationFloor
    && s'.grants == s.grants && s'.transitions == s.transitions && s'.control == s.control
    && s'.participants.Keys == s.participants.Keys
    && (forall k :: k in s.participants && k != id ==> s'.participants[k] == s.participants[k])
    && (id in s.participants ==> SameButFences(s.participants[id], s'.participants[id]))
  }

  lemma RemoveLiveFrame(o: Options, p: Participant, boot: Id, sequence: U64, g: U64)
    ensures SameButFences(p, FencedParticipant(o, p, boot, sequence, g))
  {
    hide Without;
  }

  lemma RecordFenceFrame(o: Options, s: State, id: ParticipantId, boot: Id, reason: FenceReason, note: Bytes, defensive: bool)
    ensures var step := RecordFence(o, s, id, boot, reason, note, defensive);
            step.Done? ==> FenceFrame(s, step.state, id)
  {
    hide LookupFence, FindIncarnation, LiveFence, PreventiveFence, FenceFrame;
    UntouchedFrame(s, id);
    if id in s.participants && s.fenceFloor < U64_MAX && s.generation < U64_MAX {
      PreventiveFrame(s, id, boot, reason, note);
      var found := FindIncarnation(s.participants[id], boot);
      if found.Some? {
        LiveFrame(o, s, id, boot, found.value, reason, note);
      }
    }
  }

  lemma UntouchedFrame(s: State, id: ParticipantId)
    ensures FenceFrame(s, s, id)
  {
  }

  lemma PreventiveFrame(s: State, id: ParticipantId, boot: Id, reason: FenceReason, note: Bytes)
    requires id in s.participants && s.fenceFloor < U64_MAX && s.generation < U64_MAX
    ensures FenceFrame(s, PreventiveFence(s, id, boot, reason, note), id)
  {
  }

  lemma LiveFrame(o: Options, s: State, id: ParticipantId, boot: Id, sequence: U64, reason: FenceReason, note: Bytes)
    requires id in s.participants && s.fenceFloor < U64_MAX && s.generation < U64_MAX
    ensures FenceFrame(s, LiveFence(o, s, id, boot, sequence, reason, note), id)
  {
    hide FencedParticipant, Remember, SameButFences;
    RemoveLiveFrame(o, s.participants[id], boot, sequence, s.fenceFloor + 1);
  }

  lemma FenceWorkerKeeps(o: Options, s: State, req: FenceRequest)
    requires ViableOptions(o) && Inv(o, s)
    ensures var step := FenceWorker(o, s, req); step.Done? ==> Inv(o, step.state)
  {
    hide Inv, RecordFence, RememberFor, FindAttempt;
    if req.participant in s.participants && req.boot != NIL && req.attempt != NIL {
      RecordFenceKeeps(o, s, req.participant, req.boot, req.reason, req.note, true);
      RecordFenceFrame(o, s, req.participant, req.boot, req.reason, req.note, true);
      var fence := RecordFence(o, s, req.participant, req.boot, req.reason, req.note, true);
      var step := FenceWorker(o, s, req);
      if fence.Done? && FindAttempt(s.participants[req.participant].idempotency, req.attempt).None? {
        forall r: AttemptRecord | r.attempt == req.attempt
          ensures Inv(o, RememberFor(o, fence.state, req.participant, r))
        {
          RememberForKeeps(o, fence.state, req.participant, r);
        }
      }
    }
  }

  lemma LoseSessionKeeps(o: Options, s: State, id: ParticipantId, boot: Id, reason: ClosureReason)
    requires ViableOptions(o) && Inv(o, s)
    ensures var step := LoseSession(o, s, id, boot, reason); step.Done? ==> Inv(o, step.state)
  {
    hide RecordFence;
    if id in s.participants && FindIncarnation(s.participants[id], boot).Some? {
      BootOfLive(o, s, id, boot);
      RecordFenceKeeps(o, s, id, boot, FenceReasonFor(reason), [], false);
    }
  }

  // ---- retirement --------------------------------------------------------

  /** Fencing a list of distinct live boots removes exactly those boots and counts them all. */
  lemma {:induction false} FenceEachKeeps(o: Options, s: State, id: ParticipantId, boots: seq<Id>, note: Bytes)
    requires ViableOptions(o) && Inv(o, s) && id in s.participants && DistinctIds(boots)
    requires forall i :: 0 <= i < |boots| ==> BootLive(s.participants[id], boots[i])
    ensures var step := FenceEach(o, s, id, boots, note);
            step.Done? ==>
              && Inv(o, step.state) && id in step.state.participants
              && step.result == |boots| && (step.mutated <==> boots != [])
              && (forall b :: BootLive(step.state.participants[id], b) <==> BootLive(s.participants[id], b) && b !in boots)
              && step.state.epoch == s.epoch
              && step.state.participants[id].idempotency == s.participants[id].idempotency
  {
    hide Inv, RecordFence, BootLive, FenceFrame;
    if boots != [] {
      var init, last := boots[..|boots| - 1], boots[|boots| - 1];
      assert boots == init + [last];
      FenceEachKeeps(o, s, id, init, note);
      var step := FenceEach(o, s, id, init, note);
      if step.Done? {
        OneMoreFenced(o, step.state, id, last, note);
      }
    }
  }

  lemma OneMoreFenced(o: Options, s: State, id: ParticipantId, boot: Id, note: Bytes)
    requires ViableOptions(o) && Inv(o, s) && id in s.participants && BootLive(s.participants[id], boot)
    ensures var step := RecordFence(o, s, id, boot, AdministrativeRevoke, note, false);
            step.Done? ==>
              && step.mutated && step.result.outcome == FenceDone && Inv(o, step.state)
              && id in step.state.participants && step.state.epoch == s.epoch
              && step.state.participants[id].idempotency == s.participants[id].idempotency
              && forall b :: BootLive(step.state.participants[id], b) <==> BootLive(s.participants[id], b) && b != boot
  {
    hide Inv, RecordFence, BootLive;
    LiveIsNotFenced(o, s, id, boot);
    RecordFenceFrame(o, s, id, boot, AdministrativeRevoke, note, false);
    FencingALiveBootWorks(o, s, id, boot, AdministrativeRevoke, note, false);
    RecordFenceKeeps(o, s, id, boot, AdministrativeRevoke, note, false);
  }

  lemma LiveBootsAreLive(p: Participant)
    requires LiveOk(p)
    ensures DistinctIds(LiveBoots(p))
    ensures forall i :: 0 <= i < |LiveBoots(p)| ==> BootLive(p, LiveBoots(p)[i])
    ensures forall b :: BootLive(p, b) ==> b in LiveBoots(p)
  {
    var r := LiveBoots(p);
    var k := if p.hasActiveBoot then 1 else 0;
    assert forall i :: k <= i < |r| ==> r[i] == p.extras[i - k].boot;
    assert forall i :: 0 <= i < |p.extras| ==> r[i + k] == p.extras[i].boot;
    forall b | BootLive(p, b)
      ensures b in r
    {
      if !(p.hasActiveBoot && p.activeBoot == b) {
        var i :| 0 <= i < |p.extras| && p.extras[i].boot == b;
        assert r[i + k] == b;
      }
    }
  }

  lemma RetiredRecordOk(o: Options, p: Participant, record: AttemptRecord, registrationFloor: U64, fenceFloor: U64)
    requires ViableOptions(o) && ParticipantOk(o, p, registrationFloor, fenceFloor)
    requires forall b :: !BootLive(p, b)
    requires record.attempt != NIL && FindAttempt(p.idempotency, record.attempt).None?
    ensures var p' := RetiredParticipantRecord(o, p, record);
            && ParticipantOk(o, p', registrationFloor, fenceFloor) && p'.id == p.id
            && Accepted(p') == Accepted(p) && LiveCount(p') == LiveCount(p)
            && (forall b :: !BootLive(p', b))
            && p'.incarnationFloor == p'.nextIncarnation - 1
  {
    hide TableOk;
    var p' := RetiredParticipantRecord(o, p, record);
    RememberKeepsTable(p.idempotency, o.limits.maxIdempotencyRecords, record);
    assert !p.hasActiveBoot by {
      assert p.hasActiveBoot ==> BootLive(p, p.activeBoot);
    }
    assert forall b :: BootLive(p', b) == BootLive(p, b);
  }

  lemma CloseAllocatorKeeps(o: Options, s: State, id: ParticipantId, record: AttemptRecord)
    requires ViableOptions(o) && Inv(o, s) && id in s.participants && s.generation < U64_MAX
    requires forall b :: !BootLive(s.participants[id], b)
    requires record.attempt != NIL && FindAttempt(s.participants[id].idempotency, record.attempt).None?
    ensures Inv(o, CloseAllocator(o, s, id, record))
  {
    hide ParticipantOk, FencesOk, GrantsOk, TransitionsOk, ControlOk, BootLive, FindAttempt, RetiredParticipantRecord;
    var s' := CloseAllocator(o, s, id, record);
    var p' := s'.participants[id];
    RetiredRecordOk(o, s.participants[id], record, s.registrationFloor, s.fenceFloor);
    ReplaceKeepsParticipants(o, s, s', p');
    ReplaceKeepsFences(o, s, s', p');
    ReplaceKeepsSums(o, s, s', p');
    UntouchedHistories(o, s, s');
  }

  /** Retirement fences every live incarnation and counts each of them. */
  lemma RetireKeeps(o: Options, s: State, req: RetireRequest)
    requires ViableOptions(o) && Inv(o, s)
    ensures var step := Retire(o, s, req);
            step.Done? ==>
              && Inv(o, step.state)
              && (step.mutated ==>
                    && req.participant in s.participants && req.participant in step.state.participants
                    && step.result == RetireResult(RetireDone, s.epoch, LiveCount(s.participants[req.participant]))
                    && step.state.participants[req.participant].retired
                    && forall b :: !BootLive(step.state.participants[req.participant], b))
  {
    if req.participant in s.participants && req.attempt != NIL {
      RetireKnown(o, s, req);
    }
  }

  lemma RetireKnown(o: Options, s: State, req: RetireRequest)
    requires ViableOptions(o) && Inv(o, s) && req.participant in s.participants && req.attempt != NIL
    ensures var step := Retire(o, s, req);
            step.Done? ==>
              && Inv(o, step.state)
              && (step.mutated ==>
                    && req.participant in step.state.participants
                    && step.result == RetireResult(RetireDone, s.epoch, LiveCount(s.participants[req.participant]))
                    && step.state.participants[req.participant].retired
                    && forall b :: !BootLive(step.state.participants[req.participant], b))
  {
    hide Inv, FenceEach, FindAttempt, BootLive, LiveOk, LiveBoots, LiveCount;
    var p := s.participants[req.participant];
    KnownLiveOk(o, s, req.participant);
    LiveBootsAreLive(p);
    FenceEachKeeps(o, s, req.participant, LiveBoots(p), req.note);
    var fenced := FenceEach(o, s, req.participant, LiveBoots(p), req.note);
    if fenced.Done? && fenced.state.generation < U64_MAX && FindAttempt(p.idempotency, req.attempt).None? {
      var count := fenced.result;
      var record := AttemptRecord(req.attempt, RetireKind, o.digest(Retiring(req)), 0, count % (U64_MAX + 1), 0, NIL);
      CloseAllocatorKeeps(o, fenced.state, req.participant, record);
      var q := fenced.state.participants[req.participant];
      KnownParticipantOk(o, fenced.state, req.participant);
      RetiredRecordOk(o, q, record, fenced.state.registrationFloor, fenced.state.fenceFloor);
    }
  }

  lemma KnownParticipantOk(o: Options, s: State, id: ParticipantId)
    requires Inv(o, s) && id in s.participants
    ensures s.participants[id].id == id
    ensures ParticipantOk(o, s.participants[id], s.registrationFloor, s.fenceFloor)
  {
  }

  lemma KnownLiveOk(o: Options, s: State, id: ParticipantId)
    requires Inv(o, s) && id in s.participants
    ensures LiveOk(s.participants[id])
  {
    KnownParticipantOk(o, s, id);
  }

  // ---- grants ------------------------------------------------------------

  lemma DelegatedIsAttenuated(s: State, req: GrantRequest, id: Id)
    requires s.generation < U64_MAX && req.parent.Some? && MayDelegate(s, req.parent.value, req.scopes)
    ensures exists j :: 0 <= j < |s.grants| && s.grants[j].id == req.parent.value && Attenuated(s.grants[j], NewGrant(s, req, id))
  {
    var j := IndexOf(s.grants, req.parent.value).value;
    assert Attenuated(s.grants[j], NewGrant(s, req, id));
  }

  lemma AddGrantKeepsForest(s: State, req: GrantRequest, id: Id)
    requires IsForest(s.grants) && s.generation < U64_MAX && IndexOf(s.grants, id).None?
    requires req.parent.Some? ==> MayDelegate(s, req.parent.value, req.scopes)
    ensures IsForest(s.grants + [NewGrant(s, req, id)])
  {
    hide Attenuated, MayDelegate;
    var grants := s.grants + [NewGrant(s, req, id)];
    forall i | 0 <= i < |grants|
      ensures Rooted(grants, i)
    {
      if i < |s.grants| {
        assert Rooted(s.grants, i) && grants[i] == s.grants[i];
        if grants[i].parent.Some? {
          var j :| 0 <= j < i && s.grants[j].id == grants[i].parent.value && Attenuated(s.grants[j], s.grants[i]);
          assert grants[j] == s.grants[j];
        }
      } else if req.parent.Some? {
        DelegatedIsAttenuated(s, req, id);
        var j :| 0 <= j < |s.grants| && s.grants[j].id == req.parent.value && Attenuated(s.grants[j], NewGrant(s, req, id));
        assert grants[j] == s.grants[j] && grants[i] == NewGrant(s, req, id);
        assert grants[j].id == grants[i].parent.value && Attenuated(grants[j], grants[i]);
      }
    }
  }

  /** `id` was generated for this grant: not nil, and no grant carries it. */
  predicate FreshGrantId(s: State, id: Id) {
    id != NIL && IndexOf(s.grants, id).None?
  }

  lemma GrantKeeps(o: Options, s: State, req: GrantRequest, id: Id)
    requires ViableOptions(o) && Inv(o, s) && FreshGrantId(s, id)
    ensures var step := GrantAuthority(o, s, req, id); step.Done? ==> Inv(o, step.state)
  {
    hide Inv, AddGrant, FindAttempt, Evaluate, MayDelegate, ScopesWithin;
    var step := GrantAuthority(o, s, req, id);
    if step.Done? && step.mutated {
      AddGrantKeeps(o, s, req, id);
    }
  }

  lemma AddGrantKeeps(o: Options, s: State, req: GrantRequest, id: Id)
    requires ViableOptions(o) && Inv(o, s) && FreshGrantId(s, id)
    requires req.participant in s.participants && s.generation < U64_MAX && |s.grants| < o.limits.maxGrants
    requires req.attempt != NIL && req.boot != NIL && req.incarnation != 0 && 0 < |req.scopes| <= o.limits.maxScopesPerGrant
    requires req.parent.Some? ==> MayDelegate(s, req.parent.value, req.scopes)
    requires FindAttempt(s.participants[req.participant].idempotency, req.attempt).None?
    ensures Inv(o, AddGrant(o, s, req, id))
  {
    hide ParticipantsOk, FencesOk, TransitionsOk, ControlOk, IsForest, MayDelegate, FindAttempt;
    var g := NewGrant(s, req, id);
    var s1 := s.(generation := s.generation + 1, grants := s.grants + [g]);
    AddGrantKeepsForest(s, req, id);
    assert GrantsOk(s1) by {
      assert forall i :: 0 <= i < |s.grants| ==> s1.grants[i] == s.grants[i];
    }
    SameParticipants(o, s, s1);
    var record := AttemptRecord(req.attempt, GrantKind, o.digest(Granting(req)), 0, s.generation + 1, 0, id);
    RememberForKeeps(o, s1, req.participant, record);
  }

  lemma SameParticipants(o: Options, s: State, s': State)
    requires ParticipantsOk(o, s) && FencesOk(s) && SumsOk(o, s) && TransitionsOk(s) && ControlOk(o, s)
    requires s'.participants == s.participants && s'.fences == s.fences && s'.fenceFloor == s.fenceFloor
    requires s'.registrationFloor == s.registrationFloor && s'.epoch == s.epoch && s'.generation >= s.generation
    requires s'.transitions == s.transitions && s'.control == s.control
    ensures ParticipantsOk(o, s') && FencesOk(s') && SumsOk(o, s') && TransitionsOk(s') && ControlOk(o, s')
  {
    forall i | 0 <= i < |s'.fences|
      ensures FenceOk(s', s'.fences[i])
    {
      assert FenceOk(s, s.fences[i]);
    }
  }

  // ---- revocation --------------------------------------------------------

  lemma RestampKeepsForest(grants: seq<Grant>, t: nat, generation: U64)
    requires IsForest(grants) && t < |grants|
    ensures IsForest(grants[t := grants[t].(generation := generation)])
  {
    var after := grants[t := grants[t].(generation := generation)];
    forall i | 0 <= i < |after|
      ensures Rooted(after, i)
    {
      assert Rooted(grants, i);
      if grants[i].parent.Some? {
        var j :| 0 <= j < i && grants[j].id == grants[i].parent.value && Attenuated(grants[j], grants[i]);
        assert after[i].parent == grants[i].parent && after[j].id == after[i].parent.value && Attenuated(after[j], after[i]);
      }
    }
  }

  lemma RevokeTreeKeeps(o: Options, s: State, req: RevokeRequest, t: nat)
    requires ViableOptions(o) && Inv(o, s) && t < |s.grants| && s.generation < U64_MAX
    requires req.attempt != NIL && FindAttempt(s.control, req.attempt).None?
    ensures Inv(o, RevokeTree(o, s, req, t))
  {
    hide ParticipantsOk, FencesOk, IsForest, TableOk, FindAttempt, SumsOk, TransitionsOk;
    var s' := RevokeTree(o, s, req, t);
    RevocationKeepsForest(s.grants, t, s.epoch);
    RestampKeepsForest(RevokeSubtree(s.grants, t, s.epoch), t, s.generation + 1);
    var record := s'.control[|s'.control| - 1];
    assert GrantsOk(s');
    RememberKeepsOrder(s.control, o.limits.maxIdempotencyRecords, record);
    RememberKeepsTable(s.control, o.limits.maxIdempotencyRecords, record);
    SameParticipants(o, s, s.(generation := s.generation + 1));
    AfterControl(o, s.(generation := s.generation + 1), s');
  }

  /** Participants, fences and sums depend on neither grants nor control attempts. */
  lemma AfterControl(o: Options, s: State, s': State)
    requires ParticipantsOk(o, s) && FencesOk(s) && SumsOk(o, s) && TransitionsOk(s)
    requires s'.participants == s.participants && s'.fences == s.fences && s'.fenceFloor == s.fenceFloor
    requires s'.registrationFloor == s.registrationFloor && s'.epoch == s.epoch && s'.generation == s.generation
    requires s'.transitions == s.transitions
    ensures ParticipantsOk(o, s') && FencesOk(s') && SumsOk(o, s') && TransitionsOk(s')
  {
    forall i | 0 <= i < |s'.fences|
      ensures FenceOk(s', s'.fences[i])
    {
      assert FenceOk(s, s.fences[i]);
    }
  }

  lemma RevokeKeeps(o: Options, s: State, req: RevokeRequest)
    requires ViableOptions(o) && Inv(o, s)
    ensures var step := RevokeAuthority(o, s, req); step.Done? ==> Inv(o, step.state)
  {
    hide Inv, RevokeTree, FindAttempt, IndexOf, NewlyRevoked;
    var step := RevokeAuthority(o, s, req);
    if step.Done? && step.mutated {
      RevokeTreeKeeps(o, s, req, IndexOf(s.grants, req.grant).value);
    }
  }

  // ---- epochs ------------------------------------------------------------

  /** `id` was generated for this transition: not nil, and no retained record carries it. */
  predicate FreshTransitionId(s: State, id: Id) {
    id != NIL && forall i :: 0 <= i < |s.transitions| ==> s.transitions[i].id != id
  }

  lemma {:induction false} InvalidateKeepsTotal(m: map<ParticipantId, Participant>)
    ensures Total(InvalidateAll(m), Accepted) == Total(m, Accepted)
    ensures Total(InvalidateAll(m), LiveCount) == 0
    decreases |m|
  {
    var m' := InvalidateAll(m);
    if m != map[] {
      var k :| k in m;
      TotalPick(m, Accepted, k);
      TotalPick(m', Accepted, k);
      TotalPick(m', LiveCount, k);
      CardinalityAfterRemoval(m, k);
      assert m' - {k} == InvalidateAll(m - {k});
      InvalidateKeepsTotal(m - {k});
    }
  }

  lemma InvalidatedOk(o: Options, p: Participant, registrationFloor: U64, fenceFloor: U64)
    requires ParticipantOk(o, p, registrationFloor, fenceFloor)
    ensures ParticipantOk(o, Invalidated(p), registrationFloor, fenceFloor)
    ensures forall b :: !BootLive(Invalidated(p), b)
  {
  }

  lemma MutateEpochKeeps(o: Options, s: State, boot: Id, cause: TransitionCause, transition: Id)
    requires ViableOptions(o) && Inv(o, s) && FreshTransitionId(s, transition)
    requires s.epoch < U64_MAX && s.generation < U64_MAX
    ensures Inv(o, MutateEpoch(o, s, boot, cause, true, transition))
  {
    hide ParticipantOk, IsForest, BootLive, TableOk, Accepted, LiveCount;
    var s' := MutateEpoch(o, s, boot, cause, true, transition);
    InvalidateKeepsTotal(s.participants);
    assert s'.participants.Keys == s.participants.Keys;
    assert |s'.participants| == |s.participants| by {
      assert |s'.participants.Keys| == |s.participants.Keys|;
    }
    forall id | id in s.participants
      ensures ParticipantOk(o, s'.participants[id], s.registrationFloor, s.fenceFloor)
      ensures forall b :: !BootLive(s'.participants[id], b)
    {
      InvalidatedOk(o, s.participants[id], s.registrationFloor, s.fenceFloor);
    }
    forall i | 0 <= i < |s'.fences|
      ensures FenceOk(s', s'.fences[i])
    {
      assert FenceOk(s, s.fences[i]);
    }
    MutateEpochTransitions(o, s, boot, cause, transition);
  }

  lemma MutateEpochTransitions(o: Options, s: State, boot: Id, cause: TransitionCause, transition: Id)
    requires ViableOptions(o) && TransitionsOk(s) && CountsOk(o, s) && FreshTransitionId(s, transition)
    requires s.epoch < U64_MAX && s.generation < U64_MAX
    ensures var s' := MutateEpoch(o, s, boot, cause, true, transition);
            TransitionsOk(s') && |s'.transitions| <= o.limits.maxTransitionHistory
  {
    hide InvalidateAll;
    var s' := MutateEpoch(o, s, boot, cause, true, transition);
    var t := s'.transitions[|s'.transitions| - 1];
    RememberKeepsOrder(s.transitions, o.limits.maxTransitionHistory, t);
  }

  lemma AdvanceKeeps(o: Options, s: State, req: AdvanceRequest, transition: Id)
    requires ViableOptions(o) && Inv(o, s) && FreshTransitionId(s, transition)
    ensures var step := AdvanceEpoch(o, s, req, transition); step.Done? ==> Inv(o, step.state)
  {
    hide ParticipantsOk, FencesOk, GrantsOk, TransitionsOk, TableOk, SumsOk, FindAttempt, FreshTransitionId;
    var step := AdvanceEpoch(o, s, req, transition);
    if step.Done? && step.mutated {
      MutateEpochKeeps(o, s, s.coordinatorBoot, req.cause, transition);
      var s1 := MutateEpoch(o, s, s.coordinatorBoot, req.cause, true, transition);
      var record := step.state.control[|step.state.control| - 1];
      RememberKeepsOrder(s1.control, o.limits.maxIdempotencyRecords, record);
      RememberKeepsTable(s1.control, o.limits.maxIdempotencyRecords, record);
      AfterControl(o, s1, step.state);
      SameGrants(s1, step.state);
    }
  }

  lemma SameGrants(s: State, s': State)
    requires GrantsOk(s) && s'.grants == s.grants && s'.epoch == s.epoch
    ensures GrantsOk(s')
  {
  }

  lemma PristineIsOk(o: Options)
    requires ViableOptions(o)
    ensures Inv(o, PRISTINE)
  {
  }

  lemma ReopenKeeps(o: Options, s: State, boot: Id, transition: Id)
    requires ViableOptions(o) && Inv(o, s) && (s.epoch != 0 || s == PRISTINE) && FreshTransitionId(s, transition)
    ensures var step := Reopen(o, s, boot, transition);
            step.Done? ==> Inv(o, step.state) && step.state.epoch == s.epoch + 1
  {
    hide Inv, FreshTransitionId;
    if s.epoch < U64_MAX && s.generation < U64_MAX {
      if s.epoch == 0 {
        assert InvalidateAll(PRISTINE.participants) == PRISTINE.participants;
        MutateEpochKeeps(o, s, boot, CoordinatorStart, transition);
      } else {
        MutateEpochKeeps(o, s, boot, CoordinatorRestart, transition);
      }
    }
  }
}
