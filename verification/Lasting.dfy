/** What lasts along a run, whatever is pruned in between: retirement, floors, grants and their
    revocation. */
module Lasting {
  import opened Basics
  import opened Model
  import opened Forest
  import opened Authority
  import opened Invariant
  import opened Preservation
  import opened Batch
  import opened Runs
  import opened Replay
  import opened Verdicts
  import opened Effects

  /** A retired participant stays retired, and no incarnation floor falls. */
  predicate ParticipantLasts(p: Participant, p': Participant) {
    (p.retired ==> p'.retired) && p'.incarnationFloor >= p.incarnationFloor
  }

  /** A grant keeps all that it says but its revocation, which is never taken back. */
  predicate GrantLasts(g: Grant, g': Grant) {
    && g'.id == g.id && g'.epoch == g.epoch && g'.participant == g.participant && g'.boot == g.boot && g'.incarnation == g.incarnation
    && g'.scopes == g.scopes && g'.parent == g.parent && g'.delegatorBoot == g.delegatorBoot && g'.provenance == g.provenance
    && (g.revoked ==> g'.revoked && g'.revokedAtEpoch == g.revokedAtEpoch)
  }

  predicate ParticipantsLast(s: State, s': State) {
    forall id :: id in s.participants ==> id in s'.participants && ParticipantLasts(s.participants[id], s'.participants[id])
  }

  predicate GrantsLast(s: State, s': State) {
    |s.grants| <= |s'.grants| && forall i :: 0 <= i < |s.grants| ==> GrantLasts(s.grants[i], s'.grants[i])
  }

  predicate Lasts(s: State, s': State) {
    ParticipantsLast(s, s') && GrantsLast(s, s')
  }

  lemma LastsOnwards(s: State, s': State, s'': State)
    requires Lasts(s, s') && Lasts(s', s'')
    ensures Lasts(s, s'')
  {
    hide ParticipantLasts, GrantLasts;
    forall id | id in s.participants
      ensures id in s''.participants && ParticipantLasts(s.participants[id], s''.participants[id])
    {
      ParticipantOnwards(s.participants[id], s'.participants[id], s''.participants[id]);
    }
    forall i | 0 <= i < |s.grants|
      ensures GrantLasts(s.grants[i], s''.grants[i])
    {
      GrantOnwards(s.grants[i], s'.grants[i], s''.grants[i]);
    }
  }

  lemma ParticipantOnwards(p: Participant, p': Participant, p'': Participant)
    requires ParticipantLasts(p, p') && ParticipantLasts(p', p'')
    ensures ParticipantLasts(p, p'')
  {
  }

  lemma GrantOnwards(g: Grant, g': Grant, g'': Grant)
    requires GrantLasts(g, g') && GrantLasts(g', g'')
    ensures GrantLasts(g, g'')
  {
  }

  lemma LastsItself(s: State)
    ensures Lasts(s, s)
  {
  }

  // ---- every operation ---------------------------------------------------

  lemma FencingLasts(o: Options, s: State, id: ParticipantId, boot: Id, reason: FenceReason, note: Bytes, defensive: bool)
    ensures var step := RecordFence(o, s, id, boot, reason, note, defensive); step.Done? ==> Lasts(s, step.state)
  {
    hide LookupFence, FindIncarnation, RemoveLive, Remember;
    if id in s.participants {
      var p := s.participants[id];
      forall sequence: U64, g: U64
        ensures ParticipantLasts(p, FencedParticipant(o, p, boot, sequence, g))
      {
        FencedLasts(o, p, boot, sequence, g);
      }
    }
  }

  lemma FencedLasts(o: Options, p: Participant, boot: Id, sequence: U64, g: U64)
    ensures ParticipantLasts(p, FencedParticipant(o, p, boot, sequence, g))
    ensures FencedParticipant(o, p, boot, sequence, g).incarnationFloor >= sequence
  {
    hide Without, Remember;
  }

  lemma EnrollingLasts(o: Options, s: State, req: RegisterRequest, commit: bool, mutated: bool)
    requires req.participant in s.participants ==> !s.participants[req.participant].retired
    ensures var step := EnrolWithinLimits(o, s, req, commit, mutated); step.Done? ==> Lasts(s, step.state)
  {
    hide Workers, Remember;
  }

  lemma RegisteringLasts(o: Options, s: State, req: RegisterRequest, commit: bool)
    ensures var step := Register(o, s, req, commit); step.Done? ==> Lasts(s, step.state)
  {
    hide Screen, RecordFence, EnrolWithinLimits, Lasts;
    LastsItself(s);
    ScreenedNotRetired(o, s, req);
    var v := Screen(o, s, req);
    if v.Admit? {
      EnrollingLasts(o, s, req, commit, false);
    } else if v.Replace? {
      FencingLasts(o, s, req.participant, v.incumbent, Reincarnation, [], false);
      RecordFenceFrame(o, s, req.participant, v.incumbent, Reincarnation, [], false);
      var fence := RecordFence(o, s, req.participant, v.incumbent, Reincarnation, [], false);
      var step := Register(o, s, req, commit);
      if fence.Done? && step.Done? {
        LastsItself(fence.state);
        EnrollingLasts(o, fence.state, req, commit, fence.mutated);
        LastsOnwards(s, fence.state, step.state);
      }
    }
  }

  lemma ScreenedNotRetired(o: Options, s: State, req: RegisterRequest)
    ensures !Screen(o, s, req).Refuse? && req.participant in s.participants ==> !s.participants[req.participant].retired
    ensures Screen(o, s, req).Replace? ==> req.participant in s.participants
  {
    hide LookupFence, FindAttempt, FindIncarnation, IsBoundedText, RegistrableScopes;
  }

  lemma {:induction false} BatchLasts(o: Options, s: State, reqs: seq<RegisterRequest>)
    ensures var step := RegisterEach(o, s, reqs, false); step.Done? ==> Lasts(s, step.state)
  {
    hide Register, Lasts;
    if reqs == [] {
      LastsItself(s);
    } else {
      BatchLasts(o, s, reqs[..|reqs| - 1]);
      var before := RegisterEach(o, s, reqs[..|reqs| - 1], false);
      var step := RegisterEach(o, s, reqs, false);
      if step.Done? {
        RegisteringLasts(o, before.state, reqs[|reqs| - 1], false);
        LastsOnwards(s, before.state, step.state);
      }
    }
  }

  lemma {:induction false} FenceEachLasts(o: Options, s: State, id: ParticipantId, boots: seq<Id>, note: Bytes)
    ensures var step := FenceEach(o, s, id, boots, note); step.Done? ==> Lasts(s, step.state)
  {
    hide RecordFence, Lasts;
    if boots == [] {
      LastsItself(s);
    } else {
      FenceEachLasts(o, s, id, boots[..|boots| - 1], note);
      var before := FenceEach(o, s, id, boots[..|boots| - 1], note);
      var step := FenceEach(o, s, id, boots, note);
      if step.Done? {
        FencingLasts(o, before.state, id, boots[|boots| - 1], AdministrativeRevoke, note, false);
        LastsOnwards(s, before.state, step.state);
      }
    }
  }

  /** States that differ in attempt tables and counters last. */
  lemma SameRecordsLast(s: State, s': State)
    requires s'.grants == s.grants && s.participants.Keys <= s'.participants.Keys
    requires forall id :: id in s.participants ==>
               s'.participants[id].retired == s.participants[id].retired && s'.participants[id].incarnationFloor == s.participants[id].incarnationFloor
    ensures Lasts(s, s')
  {
  }

  lemma RetiringLasts(o: Options, s: State, req: RetireRequest)
    ensures var step := Retire(o, s, req); step.Done? ==> Lasts(s, step.state)
  {
    hide FenceEach, FindAttempt, LiveBoots, Lasts, Remember;
    LastsItself(s);
    var live := LiveBootsOf(s, req.participant);
    FenceEachLasts(o, s, req.participant, live, req.note);
    var fenced := FenceEach(o, s, req.participant, live, req.note);
    var step := Retire(o, s, req);
    if fenced.Done? && step.Done? && step.mutated {
      ClosingLasts(fenced.state, step.state, req.participant);
      LastsOnwards(s, fenced.state, step.state);
    }
  }

  lemma ClosingLasts(s: State, s': State, id: ParticipantId)
    requires s'.grants == s.grants && id in s.participants && id in s'.participants && ParticipantLasts(s.participants[id], s'.participants[id])
    requires s'.participants == s.participants[id := s'.participants[id]]
    ensures Lasts(s, s')
  {
  }

  lemma FenceRequestLasts(o: Options, s: State, req: FenceRequest)
    ensures var step := FenceWorker(o, s, req); step.Done? ==> Lasts(s, step.state)
  {
    hide RecordFence, FindAttempt, Lasts, Remember;
    LastsItself(s);
    FencingLasts(o, s, req.participant, req.boot, req.reason, req.note, true);
    var fence := RecordFence(o, s, req.participant, req.boot, req.reason, req.note, true);
    var step := FenceWorker(o, s, req);
    if fence.Done? && step.Done? && step.mutated {
      SameRecordsLast(fence.state, step.state);
      LastsOnwards(s, fence.state, step.state);
    }
  }

  lemma GrantingLasts(o: Options, s: State, req: GrantRequest, id: Id)
    ensures var step := GrantAuthority(o, s, req, id); step.Done? ==> Lasts(s, step.state)
  {
    hide FindAttempt, Evaluate, MayDelegate, ScopesWithin, Remember, NewGrant;
  }

  lemma RevokingLasts(o: Options, s: State, req: RevokeRequest)
    ensures var step := RevokeAuthority(o, s, req); step.Done? ==> Lasts(s, step.state)
  {
    hide FindAttempt, Remember, NewlyRevoked, Descends;
  }

  lemma EpochLasts(o: Options, s: State, req: AdvanceRequest, transition: Id, boot: Id)
    ensures var step := AdvanceEpoch(o, s, req, transition); step.Done? ==> Lasts(s, step.state)
    ensures var step := Reopen(o, s, boot, transition); step.Done? ==> Lasts(s, step.state)
  {
    hide FindAttempt, Remember;
  }

  lemma OperationLasts(o: Options, s: State, op: Op)
    requires Apply(o, s, op).Some?
    ensures Lasts(s, Apply(o, s, op).value)
  {
    hide Lasts, Register, RegisterEach, FenceWorker, RecordFence, Retire, GrantAuthority, RevokeAuthority, AdvanceEpoch, Reopen, FindIncarnation;
    LastsItself(s);
    match op
    case DoRegister(req) => RegisteringLasts(o, s, req, true);
    case DoBatch(reqs) =>
      BatchLasts(o, s, reqs);
      var each := RegisterEach(o, s, reqs, false);
      SameRecordsLast(each.state, Apply(o, s, op).value);
      LastsOnwards(s, each.state, Apply(o, s, op).value);
    case DoFence(req) => FenceRequestLasts(o, s, req);
    case DoLoseSession(id, boot, reason) => FencingLasts(o, s, id, boot, FenceReasonFor(reason), [], false);
    case DoRetire(req) => RetiringLasts(o, s, req);
    case DoGrant(req, id) => GrantingLasts(o, s, req, id);
    case DoRevoke(req) => RevokingLasts(o, s, req);
    case DoAdvance(req, t) => EpochLasts(o, s, req, t, NIL);
    case DoReopen(boot, t) => EpochLasts(o, s, AdvanceRequest(NIL, 0, CoordinatorStart, []), t, boot);
  }

  // ---- along a run -------------------------------------------------------

  lemma {:induction false} RunsLast(o: Options, trace: seq<State>, ops: seq<Op>, j: nat, k: nat)
    requires ViableOptions(o) && IsRun(o, trace, ops) && j <= k < |trace|
    ensures Lasts(trace[j], trace[k])
    decreases k
  {
    hide Lasts, Apply, Opened, Follows, Inv, BootsUnique;
    if j == k {
      LastsItself(trace[j]);
    } else {
      RunsLast(o, trace, ops, j, k - 1);
      RunStep(o, trace, ops, k - 1);
      OperationLasts(o, trace[k - 1], ops[k - 1]);
      LastsOnwards(trace[j], trace[k - 1], trace[k]);
    }
  }

  /** A retired identity is never revived: from then on nothing it holds validates, and every well-formed
      registration of it is told that it has retired. */
  lemma RetiredForever(o: Options, trace: seq<State>, ops: seq<Op>, j: nat, k: nat, id: ParticipantId)
    requires ViableOptions(o) && IsRun(o, trace, ops) && j <= k < |trace|
    requires id in trace[j].participants && trace[j].participants[id].retired
    ensures forall v :: HeldBy(trace[k], v, id) ==> !Admits(trace[k], v)
    ensures forall req: RegisterRequest, commit :: req.participant == id && ScreenStructure(o, trace[k], req).Admit? ==>
              Register(o, trace[k], req, commit) == Done(trace[k], Refusal(trace[k], RetiredParticipant), false)
  {
    hide IsRun, Inv, BootsUnique, Admits, Holder, Register, ScreenStructure, LiveIn, GrantsLast;
    RunsLast(o, trace, ops, j, k);
    RunsKeepInvariant(o, trace, ops, k);
    forall v | HeldBy(trace[k], v, id)
      ensures !Admits(trace[k], v)
    {
      AdmittedIsLive(trace[k], v);
      LiveNeverRetired(o, trace[k], id, v.token.boot, v.token.incarnation);
    }
    forall req: RegisterRequest, commit: bool | req.participant == id && ScreenStructure(o, trace[k], req).Admit?
      ensures Register(o, trace[k], req, commit) == Done(trace[k], Refusal(trace[k], RetiredParticipant), false)
    {
      RetiredRefused(o, trace[k], req, commit);
    }
  }

  /** A revoked grant never validates again, nor does anything else under its identifier: not after later
      revocations, not after an epoch change or a restart. */
  lemma RevokedForever(o: Options, trace: seq<State>, ops: seq<Op>, j: nat, k: nat, g: Grant, v: ValidateRequest)
    requires ViableOptions(o) && IsRun(o, trace, ops) && j <= k < |trace|
    requires g in trace[j].grants && g.revoked && v.grant == Some(g.id)
    ensures !Admits(trace[k], v)
  {
    hide IsRun, Inv, BootsUnique, Admits, ParticipantsLast, GrantAdmits;
    RunsLast(o, trace, ops, j, k);
    RunsKeepInvariant(o, trace, ops, k);
    var i :| 0 <= i < |trace[j].grants| && trace[j].grants[i] == g;
    var g' := trace[k].grants[i];
    assert GrantLasts(g, g') && g' in trace[k].grants;
    GrantVerdictOnly(o, trace[k], g', v);
    RevokedAdmitsNot(trace[k], g', v);
  }

  lemma RevokedAdmitsNot(s: State, g: Grant, v: ValidateRequest)
    requires g.revoked
    ensures !GrantAdmits(s, g, v)
  {
  }

  /** No incarnation floor ever falls, whatever records are pruned. */
  lemma FloorsNeverFall(o: Options, trace: seq<State>, ops: seq<Op>, j: nat, k: nat, id: ParticipantId)
    requires ViableOptions(o) && IsRun(o, trace, ops) && j <= k < |trace| && id in trace[j].participants
    ensures id in trace[k].participants && trace[k].participants[id].incarnationFloor >= trace[j].participants[id].incarnationFloor
  {
    hide IsRun, GrantsLast;
    RunsLast(o, trace, ops, j, k);
  }
}
