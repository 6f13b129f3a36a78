/** Exactly when each request takes effect, in terms of the request and of what validates. */
module Gates {
  import opened Basics
  import opened Model
  import opened Forest
  import opened Authority
  import opened Invariant
  import opened Preservation
  import opened Batch
  import opened Retirement
  import opened Runs
  import opened Replay
  import opened Verdicts
  import opened Effects

  /** No record in the table carries this attempt. */
  predicate NewAttempt(table: seq<AttemptRecord>, attempt: Id) {
    forall r :: r in table ==> r.attempt != attempt
  }

  lemma NewAttemptIff(table: seq<AttemptRecord>, attempt: Id)
    ensures FindAttempt(table, attempt).None? <==> NewAttempt(table, attempt)
  {
    hide FindAttempt;
    if !NewAttempt(table, attempt) {
      var r :| r in table && r.attempt == attempt;
      var i :| 0 <= i < |table| && table[i] == r;
    }
  }

  /** Some incarnation of the participant is live under this boot. */
  ghost predicate RunsUnder(s: State, id: ParticipantId, boot: Id) {
    exists q: U64 :: LiveIn(s, id, boot, q)
  }

  lemma RunsIff(o: Options, s: State, id: ParticipantId, boot: Id)
    requires Inv(o, s) && id in s.participants
    ensures RunsUnder(s, id, boot) <==> FindIncarnation(s.participants[id], boot).Some?
    ensures RunsUnder(s, id, boot) <==> BootLive(s.participants[id], boot)
  {
    hide Inv, FindIncarnation, LiveIn, BootLive;
    FoundIsLive(o, s, id, boot);
    FindsLive(s.participants[id], boot);
  }

  // ---- fences ------------------------------------------------------------

  /** The request asks for a fence that is not there yet, and there is something to fence or room to
      remember it. */
  ghost predicate Fences(o: Options, s: State, req: FenceRequest) {
    && req.attempt != NIL && req.participant.text != [] && req.boot != NIL && req.expectedEpoch == s.epoch
    && req.participant in s.participants && NewAttempt(s.participants[req.participant].idempotency, req.attempt)
    && !KnownFenced(s, req.participant, req.boot)
    && (RunsUnder(s, req.participant, req.boot) || |s.fences| < o.limits.maxRecentFences)
  }

  lemma FenceTakesEffectIff(o: Options, s: State, req: FenceRequest)
    requires Inv(o, s)
    ensures var step := FenceWorker(o, s, req);
            && (step.Threw? <==> Fences(o, s, req) && (s.fenceFloor == U64_MAX || s.generation == U64_MAX))
            && (step.Done? && step.mutated <==> Fences(o, s, req) && s.fenceFloor < U64_MAX && s.generation < U64_MAX)
  {
    hide Inv, FindAttempt, LookupFence, FindIncarnation, LiveFence, PreventiveFence, KnownFenced, RunsUnder, NewAttempt, Remember;
    if req.participant in s.participants {
      NewAttemptIff(s.participants[req.participant].idempotency, req.attempt);
      KnownFencedIff(s, req.participant, req.boot);
      RunsIff(o, s, req.participant, req.boot);
    }
  }

  /** Losing a session fences exactly a boot that runs, where that is configured. */
  lemma SessionLossTakesEffectIff(o: Options, s: State, id: ParticipantId, boot: Id, reason: ClosureReason)
    requires ViableOptions(o) && Inv(o, s)
    ensures var step := LoseSession(o, s, id, boot, reason);
            var asked := o.fenceOnSessionLoss && RunsUnder(s, id, boot);
            && (step.Threw? <==> asked && (s.fenceFloor == U64_MAX || s.generation == U64_MAX))
            && (step.Done? && step.mutated <==> asked && s.fenceFloor < U64_MAX && s.generation < U64_MAX)
  {
    hide Inv, RecordFence, FindIncarnation, BootLive, RunsUnder;
    if id in s.participants {
      RunsIff(o, s, id, boot);
      if BootLive(s.participants[id], boot) {
        FencingALiveBootWorks(o, s, id, boot, FenceReasonFor(reason), [], false);
      }
    } else {
      NobodyRuns(s, id, boot);
    }
  }

  lemma NobodyRuns(s: State, id: ParticipantId, boot: Id)
    requires id !in s.participants
    ensures !RunsUnder(s, id, boot)
  {
  }

  // ---- registrations -----------------------------------------------------

  /** The request is well formed and within what the coordinator registers. */
  predicate WellAsked(o: Options, s: State, req: RegisterRequest) {
    && req.attempt != NIL && req.participant.text != [] && req.boot != NIL && IsBoundedText(req.provenance, o.limits.maxStringSize)
    && 0 < |req.scopes| <= o.limits.maxScopesPerGrant && req.expectedEpoch == s.epoch
    && (req.policy == MultiIncarnation ==> o.allowMulti)
    && forall x :: x in req.scopes ==> o.registrable(x.kind)
  }

  /** The participant is new and there is room for it; or it is known, has not retired, runs under the
      policy asked for, and neither the boot nor the attempt has been seen. */
  ghost predicate Welcome(o: Options, s: State, req: RegisterRequest) {
    if req.participant !in s.participants then |s.participants| < o.limits.maxParticipants
    else
      var p := s.participants[req.participant];
      && !p.retired && p.policy == req.policy && UpToDate(s, req.participant, req.expectedGeneration)
      && !KnownFenced(s, req.participant, req.boot) && !RunsUnder(s, req.participant, req.boot)
      && NewAttempt(p.idempotency, req.attempt)
  }

  /** The participant may run one incarnation, and runs one. */
  ghost predicate Occupied(s: State, req: RegisterRequest) {
    req.policy == SingleIncarnation && req.participant in s.participants && !NothingLive(s, req.participant)
  }

  function IncarnationAhead(s: State, id: ParticipantId): U64 {
    if id in s.participants then s.participants[id].nextIncarnation else 1
  }

  /** A registration is accepted, or throws for want of a counter, exactly when it is well asked and
      welcome, replaces an incumbent only where that is configured, and finds room among the workers. */
  lemma RegistrationTakesEffectIff(o: Options, s: State, req: RegisterRequest, commit: bool)
    requires ViableOptions(o) && Inv(o, s)
    ensures var step := Register(o, s, req, commit);
            step.Threw? || Accepts(step) <==>
              && WellAsked(o, s, req) && Welcome(o, s, req)
              && (if Occupied(s, req) then o.replacement == ReplaceIncumbent else Workers(s) < o.limits.maxActiveWorkers)
    ensures Register(o, s, req, commit).Threw? ==>
              || s.registrationFloor == U64_MAX || IncarnationAhead(s, req.participant) == U64_MAX
              || s.fenceFloor == U64_MAX || s.generation >= U64_MAX - 1
  {
    hide Inv, Screen, RecordFence, EnrolWithinLimits, Welcome, Occupied, WellAsked, Workers, FindIncarnation, LiveFence;
    ScreenIff(o, s, req);
    ScreenRefusals(o, s, req);
    var v := Screen(o, s, req);
    if v.Replace? {
      ReplacementMakesRoom(o, s, req);
      var fence := RecordFence(o, s, req.participant, v.incumbent, Reincarnation, [], false);
      if fence.Done? {
        EnrolsIff(o, fence, req, commit);
      }
    } else if v.Admit? {
      EnrolsIff(o, Done(s, FenceResult(FenceDone, s.epoch, None, None), false), req, commit);
    }
  }

  lemma EnrolsIff(o: Options, fence: Step<FenceResult>, req: RegisterRequest, commit: bool)
    requires fence.Done?
    ensures var s := fence.state;
            var step := EnrolWithinLimits(o, s, req, commit, fence.mutated);
            && (step.Threw? || (step.Done? && step.result.outcome == Registered) <==> Workers(s) < o.limits.maxActiveWorkers)
            && (step.Threw? ==> s.registrationFloor == U64_MAX || IncarnationAhead(s, req.participant) == U64_MAX || s.generation == U64_MAX)
            && (step.Done? ==> !step.result.replayed)
  {
    hide Workers, Enrolled;
  }

  lemma ScreenIff(o: Options, s: State, req: RegisterRequest)
    requires Inv(o, s)
    ensures !Screen(o, s, req).Refuse? <==>
              WellAsked(o, s, req) && Welcome(o, s, req) && (Occupied(s, req) ==> o.replacement == ReplaceIncumbent)
    ensures Screen(o, s, req).Replace? ==> Occupied(s, req)
    ensures Screen(o, s, req).Admit? ==> !Occupied(s, req)
  {
    hide Inv, LookupFence, FindAttempt, FindIncarnation, IsBoundedText, KnownFenced, RunsUnder, NewAttempt, NothingLive, RegistrableScopes;
    RegistrableIff(o, req.scopes);
    if req.participant in s.participants {
      NewAttemptIff(s.participants[req.participant].idempotency, req.attempt);
      KnownFencedIff(s, req.participant, req.boot);
      RunsIff(o, s, req.participant, req.boot);
      NothingLiveIff(o, s, req.participant);
    }
  }

  lemma RegistrableIff(o: Options, scopes: seq<Scope>)
    ensures RegistrableScopes(o, scopes) <==> forall x :: x in scopes ==> o.registrable(x.kind)
  {
    if RegistrableScopes(o, scopes) {
      forall x | x in scopes
        ensures o.registrable(x.kind)
      {
        var i :| 0 <= i < |scopes| && scopes[i] == x;
      }
    }
    assert forall i :: 0 <= i < |scopes| ==> scopes[i] in scopes;
  }

  /** Fencing the incumbent frees a worker, so a replacement always finds room. */
  lemma ReplacementMakesRoom(o: Options, s: State, req: RegisterRequest)
    requires ViableOptions(o) && Inv(o, s) && Screen(o, s, req).Replace?
    ensures var fence := RecordFence(o, s, req.participant, Screen(o, s, req).incumbent, Reincarnation, [], false);
            && (fence.Threw? <==> s.fenceFloor == U64_MAX || s.generation == U64_MAX)
            && (fence.Done? ==>
                  && fence.result.outcome == FenceDone && Workers(fence.state) < o.limits.maxActiveWorkers
                  && fence.state.registrationFloor == s.registrationFloor && fence.state.generation <= s.generation + 1
                  && IncarnationAhead(fence.state, req.participant) == IncarnationAhead(s, req.participant))
  {
    hide Inv, Screen, RecordFence, BootLive, Workers;
    var incumbent := Screen(o, s, req).incumbent;
    IncumbentFacts(o, s, req);
    FencingALiveBootWorks(o, s, req.participant, incumbent, Reincarnation, [], false);
    RecordFenceFrame(o, s, req.participant, incumbent, Reincarnation, [], false);
    OneWorkerFewer(o, s, req.participant, incumbent, Reincarnation, []);
  }

  lemma OneWorkerFewer(o: Options, s: State, id: ParticipantId, boot: Id, reason: FenceReason, note: Bytes)
    requires ViableOptions(o) && Inv(o, s) && id in s.participants && BootLive(s.participants[id], boot)
    ensures var step := RecordFence(o, s, id, boot, reason, note, false);
            step.Done? ==> Workers(step.state) < o.limits.maxActiveWorkers && step.state.generation <= s.generation + 1
  {
    hide Inv, LookupFence, FindIncarnation, BootLive, FencedParticipant, Total, Remember;
    LiveIsNotFenced(o, s, id, boot);
    FindsLive(s.participants[id], boot);
    KnownParticipantOk(o, s, id);
    WithinWorkers(o, s);
    var p := s.participants[id];
    var sequence := FindIncarnation(p, boot).value;
    if s.fenceFloor < U64_MAX {
      FencedLiveCount(o, p, boot, sequence, s.fenceFloor + 1);
      TotalUpdate(s.participants, LiveCount, id, FencedParticipant(o, p, boot, sequence, s.fenceFloor + 1));
    }
  }

  lemma WithinWorkers(o: Options, s: State)
    requires Inv(o, s)
    ensures Workers(s) <= o.limits.maxActiveWorkers
  {
  }

  lemma FencedLiveCount(o: Options, p: Participant, boot: Id, sequence: U64, g: U64)
    requires LiveOk(p) && BootLive(p, boot)
    ensures LiveCount(FencedParticipant(o, p, boot, sequence, g)) == LiveCount(p) - 1
  {
    RemoveLiveFacts(p, boot);
  }

  // ---- retirements -------------------------------------------------------

  /** A retirement takes effect exactly when it is asked of this epoch, of a participant that has not
      retired, under an attempt not seen before. */
  lemma RetirementTakesEffectIff(o: Options, s: State, req: RetireRequest)
    requires ViableOptions(o) && Inv(o, s)
    ensures var step := Retire(o, s, req);
            var asked := && req.attempt != NIL && req.participant.text != [] && req.expectedEpoch == s.epoch
                         && req.participant in s.participants && !s.participants[req.participant].retired
                         && NewAttempt(s.participants[req.participant].idempotency, req.attempt);
            && (step.Threw? || step.mutated <==> asked)
            && (step.Done? && step.mutated ==> step.result == RetireResult(RetireDone, s.epoch, LiveCount(s.participants[req.participant])))
  {
    hide Inv, FenceEach, FindAttempt, NewAttempt, LiveBoots, RetiredParticipantRecord;
    RetireKeeps(o, s, req);
    if req.participant in s.participants {
      NewAttemptIff(s.participants[req.participant].idempotency, req.attempt);
      LivesAlways(o, s, req);
    }
  }

  lemma LivesAlways(o: Options, s: State, req: RetireRequest)
    ensures var fenced := FenceEach(o, s, req.participant, LiveBootsOf(s, req.participant), req.note);
            fenced.Done? ==> (req.participant in fenced.state.participants <==> req.participant in s.participants)
  {
    hide FenceEach, LiveBoots;
    FenceEachFrame(o, s, req.participant, LiveBootsOf(s, req.participant), req.note);
  }

  // ---- grants ------------------------------------------------------------

  /** The parent, presented by the incarnation it was granted to, would validate for this scope. */
  ghost predicate ParentCovers(s: State, parent: Id, x: Scope) {
    exists g :: g in s.grants && g.id == parent
                && Admits(s, ValidateRequest(Token(s.epoch, g.participant, g.boot, g.incarnation), x, None, Some(parent)))
  }

  ghost predicate GrantAsked(o: Options, s: State, req: GrantRequest) {
    && req.attempt != NIL && req.expectedEpoch == s.epoch && req.boot != NIL && req.incarnation != 0
    && 0 < |req.scopes| <= o.limits.maxScopesPerGrant && |s.grants| < o.limits.maxGrants
    && LiveIn(s, req.participant, req.boot, req.incarnation)
    && req.participant in s.participants && NewAttempt(s.participants[req.participant].idempotency, req.attempt)
    && (forall x :: x in req.scopes ==>
          Admits(s, TokenFor(s, req.participant, req.boot, req.incarnation, x, None))
          && (req.parent.Some? ==> ParentCovers(s, req.parent.value, x)))
  }

  /** A grant is made exactly when the incarnation that asks is itself current for every scope, and so
      is the parent, if one is named. */
  lemma GrantTakesEffectIff(o: Options, s: State, req: GrantRequest, id: Id)
    requires ViableOptions(o) && Inv(o, s)
    ensures var step := GrantAuthority(o, s, req, id);
            && (step.Threw? <==> GrantAsked(o, s, req) && s.generation == U64_MAX)
            && (step.Done? && step.mutated <==> GrantAsked(o, s, req) && s.generation < U64_MAX)
  {
    hide Inv, FindAttempt, NewAttempt, Evaluate, MayDelegate, ScopesWithin, Admits, LiveIn, AddGrant, ParentCovers;
    if req.participant in s.participants && req.incarnation != 0 && req.boot != NIL {
      var p := s.participants[req.participant];
      NewAttemptIff(p.idempotency, req.attempt);
      Evaluated(o, s, req.participant, req.boot, req.incarnation);
      SameId(o, s, req.participant);
      WithinIff(req.scopes, p.scopes);
      forall x: Scope
        ensures Admits(s, TokenFor(s, req.participant, req.boot, req.incarnation, x, None)) <==>
                LiveIn(s, req.participant, req.boot, req.incarnation) && x in p.scopes
      {
        AdmitsIff(o, s, TokenFor(s, req.participant, req.boot, req.incarnation, x, None));
      }
      if req.parent.Some? && req.scopes != [] {
        DelegatesIff(o, s, req.parent.value, req.scopes);
      }
    }
  }

  lemma WithinIff(inner: seq<Scope>, outer: seq<Scope>)
    ensures ScopesWithin(inner, outer) <==> forall x :: x in inner ==> x in outer
  {
    if ScopesWithin(inner, outer) {
      forall x | x in inner
        ensures x in outer
      {
        var i :| 0 <= i < |inner| && inner[i] == x;
      }
    }
    assert forall i :: 0 <= i < |inner| ==> inner[i] in inner;
  }

  /** The delegation check asks of the parent what validation would ask. */
  lemma DelegatesIff(o: Options, s: State, parent: Id, scopes: seq<Scope>)
    requires Inv(o, s) && scopes != []
    ensures MayDelegate(s, parent, scopes) <==> forall x :: x in scopes ==> ParentCovers(s, parent, x)
  {
    hide Inv, Evaluate, Admits, LiveIn, ScopesWithin;
    var j := IndexOf(s.grants, parent);
    if j.Some? {
      var g := s.grants[j.value];
      assert g in s.grants && scopes[0] in scopes;
      WithinIff(scopes, g.scopes);
      GrantShape(o, s, g);
      if g.participant in s.participants {
        Evaluated(o, s, g.participant, g.boot, g.incarnation);
      }
      forall x: Scope
        ensures ParentCovers(s, parent, x) <==>
                !g.revoked && g.epoch == s.epoch && LiveIn(s, g.participant, g.boot, g.incarnation) && x in g.scopes
      {
        OwnGrantAdmits(o, s, g, x);
        forall h | h in s.grants && h.id == parent
          ensures h == g
        {
          FindsThatGrant(o, s, h);
        }
      }
      UnknownHolder(s, g.participant, g.boot, g.incarnation);
    } else {
      assert forall g :: g in s.grants ==> g.id != parent;
      assert scopes[0] in scopes;
    }
  }

  lemma GrantShape(o: Options, s: State, g: Grant)
    requires Inv(o, s) && g in s.grants
    ensures g.boot != NIL && g.incarnation != 0
  {
  }

  lemma OwnGrantAdmits(o: Options, s: State, g: Grant, x: Scope)
    requires Inv(o, s) && g in s.grants
    ensures Admits(s, ValidateRequest(Token(s.epoch, g.participant, g.boot, g.incarnation), x, None, Some(g.id))) <==>
            !g.revoked && g.epoch == s.epoch && LiveIn(s, g.participant, g.boot, g.incarnation) && x in g.scopes
  {
    hide Inv, Admits, LiveIn;
    GrantVerdictOnly(o, s, g, ValidateRequest(Token(s.epoch, g.participant, g.boot, g.incarnation), x, None, Some(g.id)));
    GrantShape(o, s, g);
    LiveIsWellPut(o, s, g.participant, g.boot, g.incarnation);
  }

  // ---- revocations and advances ------------------------------------------

  /** A revocation takes effect exactly when it is asked of this epoch, under an attempt not seen before,
      of a grant there is and that is not revoked yet. */
  lemma RevocationTakesEffectIff(o: Options, s: State, req: RevokeRequest)
    requires Inv(o, s)
    ensures var step := RevokeAuthority(o, s, req);
            var asked := && req.attempt != NIL && req.expectedEpoch == s.epoch && NewAttempt(s.control, req.attempt)
                         && exists g :: g in s.grants && g.id == req.grant && !g.revoked;
            && (step.Threw? <==> asked && s.generation == U64_MAX)
            && (step.Done? && step.mutated <==> asked && s.generation < U64_MAX)
  {
    hide Inv, FindAttempt, NewAttempt, RevokeTree, NewlyRevoked;
    NewAttemptIff(s.control, req.attempt);
    var t := IndexOf(s.grants, req.grant);
    if t.Some? {
      assert s.grants[t.value] in s.grants;
      GrantNamed(o, s, s.grants[t.value]);
    }
    forall g | g in s.grants && g.id == req.grant
      ensures t.Some? && s.grants[t.value] == g
    {
      FindsThatGrant(o, s, g);
    }
  }

  lemma GrantNamed(o: Options, s: State, g: Grant)
    requires Inv(o, s) && g in s.grants
    ensures g.id != NIL
  {
  }

  /** An advance takes effect exactly when it expects this epoch, under an attempt not seen before, and
      there is a next epoch. */
  lemma AdvanceTakesEffectIff(o: Options, s: State, req: AdvanceRequest, transition: Id)
    ensures var step := AdvanceEpoch(o, s, req, transition);
            var asked := req.attempt != NIL && req.expectedEpoch == s.epoch && s.epoch < U64_MAX && NewAttempt(s.control, req.attempt);
            && (step.Threw? <==> asked && s.generation == U64_MAX)
            && (step.Done? && step.mutated <==> asked && s.generation < U64_MAX)
  {
    hide FindAttempt, NewAttempt, MutateEpoch, Remember;
    NewAttemptIff(s.control, req.attempt);
  }
}
