/** What each operation does to what validates: after it, exactly which tokens and grants are current.
    Nothing here names the records an operation updates. */
module Effects {
  import opened Basics
  import opened Model
  import opened Forest
  import opened Authority
  import opened Invariant
  import opened Preservation
  import opened Batch
  import opened Runs
  import opened Replay
  import opened Verdicts

  // ---- what admission depends on -----------------------------------------

  /** Between the states, the incarnation lives or not as before, and its participant may do what it could. */
  predicate Kept(s: State, s': State, id: ParticipantId, boot: Id, sequence: U64) {
    && (LiveIn(s', id, boot, sequence) <==> LiveIn(s, id, boot, sequence))
    && (id in s.participants ==>
          && id in s'.participants && s'.participants[id].scopes == s.participants[id].scopes
          && s'.participants[id].registrationGeneration == s.participants[id].registrationGeneration)
  }

  /** The holder's incarnation is live, on either path. */
  predicate HeldBy(s: State, v: ValidateRequest, id: ParticipantId) {
    Holder(s, v) == Some(id)
  }

  /** Exactly when a request is admitted, on either path. */
  ghost predicate AdmittedBy(s: State, v: ValidateRequest) {
    && WellPut(v)
    && if v.grant.None? then
         var id := v.token.participant;
         v.token.epoch == s.epoch && LiveIn(s, id, v.token.boot, v.token.incarnation)
         && id in s.participants && v.scope in s.participants[id].scopes && UpToDate(s, id, v.expectedGeneration)
       else
         exists g :: g in s.grants && v.grant == Some(g.id) && GrantAdmits(s, g, v)
  }

  lemma AdmitsIff(o: Options, s: State, v: ValidateRequest)
    requires Inv(o, s)
    ensures Admits(s, v) <==> AdmittedBy(s, v)
  {
    hide Inv, Validate, GrantAdmits, LiveIn, AwaitsRevalidation;
    if v.grant.None? {
      TokenVerdicts(o, s, v);
      var id := v.token.participant;
      if id in s.participants {
        LiveNeverRetired(o, s, id, v.token.boot, v.token.incarnation);
      }
    } else {
      GrantCurrentIff(o, s, v, v.grant.value);
    }
  }

  lemma LiveNeverRetired(o: Options, s: State, id: ParticipantId, boot: Id, sequence: U64)
    requires Inv(o, s) && id in s.participants
    ensures LiveIn(s, id, boot, sequence) ==> !s.participants[id].retired
  {
    hide Inv, IsLive;
    KnownLiveOk(o, s, id);
    LiveNotRetired(s.participants[id], boot, sequence);
  }

  lemma GrantHolder(o: Options, s: State, g: Grant, v: ValidateRequest)
    requires Inv(o, s) && g in s.grants && v.grant == Some(g.id)
    ensures HeldBy(s, v, g.participant)
  {
    hide Inv;
    FindsThatGrant(o, s, g);
  }

  /** Admission is unchanged where the holder's incarnation is. */
  lemma SameAdmission(o: Options, s: State, s': State, v: ValidateRequest)
    requires Inv(o, s) && Inv(o, s') && s'.epoch == s.epoch && s'.grants == s.grants
    requires Holder(s, v).Some? ==> Kept(s, s', Holder(s, v).value, v.token.boot, v.token.incarnation)
    ensures Admits(s', v) <==> Admits(s, v)
  {
    hide Inv, Admits, LiveIn;
    AdmitsIff(o, s, v);
    AdmitsIff(o, s', v);
    forall g | g in s.grants && v.grant == Some(g.id)
      ensures GrantAdmits(s', g, v) <==> GrantAdmits(s, g, v)
    {
      GrantHolder(o, s, g, v);
      UnknownHolder(s, g.participant, v.token.boot, v.token.incarnation);
      UnknownHolder(s', g.participant, v.token.boot, v.token.incarnation);
    }
    UnknownHolder(s, v.token.participant, v.token.boot, v.token.incarnation);
    UnknownHolder(s', v.token.participant, v.token.boot, v.token.incarnation);
  }

  lemma UnknownHolder(s: State, id: ParticipantId, boot: Id, sequence: U64)
    ensures LiveIn(s, id, boot, sequence) ==> id in s.participants
  {
  }

  /** What is admitted is live under its holder. */
  lemma AdmittedIsLive(s: State, v: ValidateRequest)
    ensures Admits(s, v) ==> Holder(s, v).Some? && LiveIn(s, Holder(s, v).value, v.token.boot, v.token.incarnation)
  {
    hide Validate, LiveIn, Holder;
    CurrentMeansLive(s, v);
  }

  // ---- fences ------------------------------------------------------------

  /** Exactly the requests held by this boot of this participant stop being admitted. */
  ghost predicate TakesAway(s: State, s': State, id: ParticipantId, boot: Id) {
    forall v :: Admits(s', v) <==> Admits(s, v) && !(HeldBy(s, v, id) && v.token.boot == boot)
  }

  /** A bounded history that took one more entry: the newest are kept, in order, as many as fit. */
  predicate KeepsNewest<T(==)>(before: seq<T>, after: seq<T>, bound: nat) {
    && |after| == (if |before| < bound then |before| + 1 else bound)
    && 0 < |after| <= |before| + 1 && after[..|after| - 1] == before[|before| + 1 - |after|..]
  }

  lemma RememberKeepsNewest<T>(table: seq<T>, bound: nat, record: T)
    requires |table| <= bound && bound > 0
    ensures KeepsNewest(table, Remember(table, bound, record), bound)
  {
  }

  /** What the participant keeps of the fence: its generation, a floor that covers the sequence fenced, and,
      if something was fenced, the boot as the newest of its ring. */
  predicate RemembersFence(o: Options, s: State, s': State, id: ParticipantId, boot: Id, result: FenceResult) {
    && id in s.participants && id in s'.participants && KnownFenced(s', id, boot)
    && var p, p' := s.participants[id], s'.participants[id];
    && p'.fenceGeneration == s'.fenceFloor
    && (if result.incarnation.None? then p'.fencedBoots == p.fencedBoots && p'.incarnationFloor == p.incarnationFloor
        else && p'.incarnationFloor >= result.incarnation.value
             && (p'.incarnationFloor == p.incarnationFloor || p'.incarnationFloor == result.incarnation.value)
             && p'.fencedBoots != [] && p'.fencedBoots[|p'.fencedBoots| - 1] == boot
             && KeepsNewest(p.fencedBoots, p'.fencedBoots, o.limits.maxFencedBoots))
  }

  /** The newest fence record, as an operator would read it. */
  predicate NewestFenceSays(s: State, s': State, id: ParticipantId, boot: Id, reason: FenceReason, note: Bytes, result: FenceResult) {
    && s'.fences != []
    && var f := s'.fences[|s'.fences| - 1];
    && f.boot == boot && f.participant == id && f.reason == reason && f.note == note && f.epoch == s.epoch
    && result.fenceGeneration == Some(f.generation) && f.generation > s.fenceFloor && s'.fenceFloor == f.generation
    && f.incarnation == (if result.incarnation.Some? then result.incarnation.value else 0)
  }

  /** The answer names the incarnation that was live, if one was. */
  ghost predicate AnswersFence(s: State, id: ParticipantId, boot: Id, result: FenceResult) {
    && result.epoch == s.epoch && result.outcome == FenceDone
    && (result.incarnation.Some? <==> exists q: U64 :: LiveIn(s, id, boot, q))
    && (result.incarnation.Some? ==> LiveIn(s, id, boot, result.incarnation.value))
  }

  ghost predicate RecordsFence(o: Options, s: State, s': State, id: ParticipantId, boot: Id, reason: FenceReason, note: Bytes, result: FenceResult) {
    && NewestFenceSays(s, s', id, boot, reason, note, result) && AnswersFence(s, id, boot, result)
    && KeepsNewest(s.fences, s'.fences, o.limits.maxRecentFences) && RemembersFence(o, s, s', id, boot, result)
  }

  lemma FenceFrameKept(o: Options, s: State, s': State, id: ParticipantId, boot: Id, k: ParticipantId, b: Id, q: U64)
    requires FenceFrame(s, s', id)
    requires id in s.participants ==> (IsLive(s'.participants[id], b, q) <==> IsLive(s.participants[id], b, q) && b != boot)
    requires k != id || b != boot
    ensures Kept(s, s', k, b, q)
  {
    hide IsLive;
  }

  /** A fence that is recorded takes away exactly the boot it names, and says so in its record. */
  lemma FenceTakesAway(o: Options, s: State, id: ParticipantId, boot: Id, reason: FenceReason, note: Bytes, defensive: bool)
    requires ViableOptions(o) && Inv(o, s) && boot != NIL
    ensures var step := RecordFence(o, s, id, boot, reason, note, defensive);
            step.Done? && step.mutated ==>
              TakesAway(s, step.state, id, boot) && RecordsFence(o, s, step.state, id, boot, reason, note, step.result)
  {
    hide Inv, RecordFence, Admits, FenceFrame, RecordsFence, Holder, IsLive;
    var step := RecordFence(o, s, id, boot, reason, note, defensive);
    if step.Done? && step.mutated {
      var s' := step.state;
      RecordFenceKeeps(o, s, id, boot, reason, note, defensive);
      RecordFenceFrame(o, s, id, boot, reason, note, defensive);
      FenceRecordIs(o, s, id, boot, reason, note, defensive);
      FenceFrameParts(s, s', id);
      forall v: ValidateRequest
        ensures Admits(s', v) <==> Admits(s, v) && !(HeldBy(s, v, id) && v.token.boot == boot)
      {
        SameHolder(s, s', v);
        AdmittedIsLive(s', v);
        FenceLives(o, s, id, boot, reason, note, defensive, v.token.boot, v.token.incarnation);
        if !(HeldBy(s, v, id) && v.token.boot == boot) {
          if Holder(s, v).Some? {
            FenceFrameKept(o, s, s', id, boot, Holder(s, v).value, v.token.boot, v.token.incarnation);
          }
          SameAdmission(o, s, s', v);
        }
      }
    }
  }

  lemma FenceFrameParts(s: State, s': State, id: ParticipantId)
    requires FenceFrame(s, s', id)
    ensures s'.epoch == s.epoch && s'.grants == s.grants && s'.participants.Keys == s.participants.Keys
  {
  }

  lemma SameHolder(s: State, s': State, v: ValidateRequest)
    requires s'.grants == s.grants
    ensures Holder(s', v) == Holder(s, v)
  {
  }

  /** Of the fenced participant, exactly the fenced boot has left the live set. */
  lemma FenceLives(o: Options, s: State, id: ParticipantId, boot: Id, reason: FenceReason, note: Bytes, defensive: bool, b: Id, q: U64)
    requires Inv(o, s)
    ensures var step := RecordFence(o, s, id, boot, reason, note, defensive);
            step.Done? && step.mutated ==>
              && id in s.participants && id in step.state.participants
              && (IsLive(step.state.participants[id], b, q) <==> IsLive(s.participants[id], b, q) && b != boot)
  {
    hide Inv, LookupFence, FindIncarnation, IsLive, BootLive, RemoveLive, Remember;
    if id in s.participants {
      var p := s.participants[id];
      KnownLiveOk(o, s, id);
      FindsLive(p, boot);
      LiveHasBoot(p, b, q);
      if BootLive(p, boot) {
        RemoveLiveFacts(p, boot);
        forall g: U64, n: U64 | true
          ensures IsLive(FencedParticipant(o, p, boot, n, g), b, q) == IsLive(RemoveLive(p, boot), b, q)
        {
          SameLive(FencedParticipant(o, p, boot, n, g), RemoveLive(p, boot), b, q);
        }
      }
      forall g: U64
        ensures IsLive(p.(fenceGeneration := g), b, q) == IsLive(p, b, q)
      {
        SameLive(p.(fenceGeneration := g), p, b, q);
      }
    }
  }

  lemma LiveHasBoot(p: Participant, boot: Id, sequence: U64)
    ensures IsLive(p, boot, sequence) ==> BootLive(p, boot)
  {
  }

  lemma SameLive(p: Participant, p': Participant, b: Id, q: U64)
    requires p'.hasActiveBoot == p.hasActiveBoot && p'.activeBoot == p.activeBoot && p'.activeIncarnation == p.activeIncarnation
    requires p'.extras == p.extras
    ensures IsLive(p', b, q) == IsLive(p, b, q)
  {
  }

  lemma FenceRecordIs(o: Options, s: State, id: ParticipantId, boot: Id, reason: FenceReason, note: Bytes, defensive: bool)
    requires ViableOptions(o) && Inv(o, s)
    ensures var step := RecordFence(o, s, id, boot, reason, note, defensive);
            step.Done? && step.mutated ==> RecordsFence(o, s, step.state, id, boot, reason, note, step.result)
  {
    hide Inv, LookupFence, FindIncarnation, LiveFence, PreventiveFence, RecordsFence, LiveIn;
    if id in s.participants && s.fenceFloor < U64_MAX && s.generation < U64_MAX {
      var found := FindIncarnation(s.participants[id], boot);
      FoundIsLive(o, s, id, boot);
      if found.Some? {
        LiveFenceRecords(o, s, id, boot, found.value, reason, note);
      } else if |s.fences| < o.limits.maxRecentFences {
        PreventiveFenceRecords(o, s, id, boot, reason, note);
      }
    }
  }

  /** A live fence: each part of the account is read off its own field. */
  lemma LiveFenceRecords(o: Options, s: State, id: ParticipantId, boot: Id, sequence: U64, reason: FenceReason, note: Bytes)
    requires ViableOptions(o) && Inv(o, s) && id in s.participants && s.fenceFloor < U64_MAX && s.generation < U64_MAX
    requires LiveIn(s, id, boot, sequence)
    ensures RecordsFence(o, s, LiveFence(o, s, id, boot, sequence, reason, note), id, boot, reason, note,
                         FenceResult(FenceDone, s.epoch, Some(s.fenceFloor + 1), Some(sequence)))
  {
    var g: U64 := s.fenceFloor + 1;
    var s', result := LiveFence(o, s, id, boot, sequence, reason, note), FenceResult(FenceDone, s.epoch, Some(g), Some(sequence));
    hide *;
    LiveFenceSays(o, s, id, boot, sequence, reason, note);
    LiveFenceParts(o, s, id, boot, sequence, reason, note);
    Bounds(o, s, id);
    AnswersLive(s, id, boot, result);
    RemembersLive(o, s, s', id, boot, result);
    FourParts(o, s, s', id, boot, reason, note, result);
  }

  lemma FourParts(o: Options, s: State, s': State, id: ParticipantId, boot: Id, reason: FenceReason, note: Bytes, result: FenceResult)
    requires NewestFenceSays(s, s', id, boot, reason, note, result) && AnswersFence(s, id, boot, result)
    requires KeepsNewest(s.fences, s'.fences, o.limits.maxRecentFences) && RemembersFence(o, s, s', id, boot, result)
    ensures RecordsFence(o, s, s', id, boot, reason, note, result)
  {
    hide NewestFenceSays, AnswersFence, KeepsNewest, RemembersFence;
  }

  lemma LiveFenceSays(o: Options, s: State, id: ParticipantId, boot: Id, sequence: U64, reason: FenceReason, note: Bytes)
    requires ViableOptions(o) && Inv(o, s) && id in s.participants && s.fenceFloor < U64_MAX && s.generation < U64_MAX
    ensures var s' := LiveFence(o, s, id, boot, sequence, reason, note);
            && NewestFenceSays(s, s', id, boot, reason, note, FenceResult(FenceDone, s.epoch, Some(s.fenceFloor + 1), Some(sequence)))
            && KeepsNewest(s.fences, s'.fences, o.limits.maxRecentFences) && KnownFenced(s', id, boot)
  {
    var g: U64 := s.fenceFloor + 1;
    var s' := LiveFence(o, s, id, boot, sequence, reason, note);
    var record, result := FenceRecord(boot, id, reason, g, s.epoch, sequence, note), FenceResult(FenceDone, s.epoch, Some(g), Some(sequence));
    hide *;
    Bounds(o, s, id);
    LiveFenceParts(o, s, id, boot, sequence, reason, note);
    NewestRemembered(s.fences, o.limits.maxRecentFences, record);
    RememberKeepsNewest(s.fences, o.limits.maxRecentFences, record);
    NewestIsKnown(s', id, boot);
    SaysNewest(s, s', record, result);
  }

  lemma LiveFenceParts(o: Options, s: State, id: ParticipantId, boot: Id, sequence: U64, reason: FenceReason, note: Bytes)
    requires id in s.participants && s.fenceFloor < U64_MAX && s.generation < U64_MAX
    ensures var s' := LiveFence(o, s, id, boot, sequence, reason, note);
            && s'.fences == Remember(s.fences, o.limits.maxRecentFences, FenceRecord(boot, id, reason, s.fenceFloor + 1, s.epoch, sequence, note))
            && s'.fenceFloor == s.fenceFloor + 1 && id in s'.participants
            && s'.participants[id] == FencedParticipant(o, s.participants[id], boot, sequence, s.fenceFloor + 1)
  {
    hide FencedParticipant, Remember;
  }

  lemma SaysNewest(s: State, s': State, record: FenceRecord, result: FenceResult)
    requires s'.fences != [] && s'.fences[|s'.fences| - 1] == record
    requires record.generation > s.fenceFloor && s'.fenceFloor == record.generation && record.epoch == s.epoch
    requires result.fenceGeneration == Some(record.generation)
    requires record.incarnation == if result.incarnation.Some? then result.incarnation.value else 0
    ensures NewestFenceSays(s, s', record.participant, record.boot, record.reason, record.note, result)
  {
  }

  lemma AnswersLive(s: State, id: ParticipantId, boot: Id, result: FenceResult)
    requires result.epoch == s.epoch && result.outcome == FenceDone
    requires result.incarnation.Some? && LiveIn(s, id, boot, result.incarnation.value)
    ensures AnswersFence(s, id, boot, result)
  {
    hide LiveIn;
  }

  lemma RemembersLive(o: Options, s: State, s': State, id: ParticipantId, boot: Id, result: FenceResult)
    requires id in s.participants && id in s'.participants && KnownFenced(s', id, boot) && result.incarnation.Some?
    requires |s.participants[id].fencedBoots| <= o.limits.maxFencedBoots && o.limits.maxFencedBoots > 0
    requires s'.participants[id] == FencedParticipant(o, s.participants[id], boot, result.incarnation.value, s'.fenceFloor)
    ensures RemembersFence(o, s, s', id, boot, result)
  {
    hide FencedParticipant, KnownFenced, KeepsNewest;
    FencedRing(o, s.participants[id], boot, result.incarnation.value, s'.fenceFloor);
  }

  lemma NewestIsKnown(s: State, id: ParticipantId, boot: Id)
    requires s.fences != [] && s.fences[|s.fences| - 1].boot == boot && s.fences[|s.fences| - 1].participant == id
    ensures KnownFenced(s, id, boot)
  {
  }

  lemma PreventiveFenceRecords(o: Options, s: State, id: ParticipantId, boot: Id, reason: FenceReason, note: Bytes)
    requires ViableOptions(o) && Inv(o, s) && id in s.participants && s.fenceFloor < U64_MAX && s.generation < U64_MAX
    requires |s.fences| < o.limits.maxRecentFences && forall q: U64 :: !LiveIn(s, id, boot, q)
    ensures RecordsFence(o, s, PreventiveFence(s, id, boot, reason, note), id, boot, reason, note,
                         FenceResult(FenceDone, s.epoch, Some(s.fenceFloor + 1), None))
  {
    hide Inv, LiveIn, PreventiveFence, Remember, KeepsNewest, KnownFenced, NewestFenceSays, AnswersFence, RemembersFence;
    var s', result := PreventiveFence(s, id, boot, reason, note), FenceResult(FenceDone, s.epoch, Some(s.fenceFloor + 1), None);
    var record := FenceRecord(boot, id, reason, s.fenceFloor + 1, s.epoch, 0, note);
    Bounds(o, s, id);
    PreventiveFenceParts(s, id, boot, reason, note);
    RememberKeepsNewest(s.fences, o.limits.maxRecentFences, record);
    AppendIsRemember(s.fences, o.limits.maxRecentFences, record);
    NewestRemembered(s.fences, o.limits.maxRecentFences, record);
    NewestIsKnown(s', id, boot);
    SaysNewest(s, s', record, result);
    AnswersNone(s, id, boot, result);
    RemembersNone(o, s, s', id, boot, result);
  }

  lemma PreventiveFenceParts(s: State, id: ParticipantId, boot: Id, reason: FenceReason, note: Bytes)
    requires id in s.participants && s.fenceFloor < U64_MAX && s.generation < U64_MAX
    ensures var s' := PreventiveFence(s, id, boot, reason, note);
            && s'.fences == s.fences + [FenceRecord(boot, id, reason, s.fenceFloor + 1, s.epoch, 0, note)]
            && s'.fenceFloor == s.fenceFloor + 1 && id in s'.participants
            && s'.participants[id] == s.participants[id].(fenceGeneration := s.fenceFloor + 1)
  {
  }

  lemma AnswersNone(s: State, id: ParticipantId, boot: Id, result: FenceResult)
    requires result.epoch == s.epoch && result.outcome == FenceDone
    requires result.incarnation.None? && forall q: U64 :: !LiveIn(s, id, boot, q)
    ensures AnswersFence(s, id, boot, result)
  {
    hide LiveIn;
  }

  lemma RemembersNone(o: Options, s: State, s': State, id: ParticipantId, boot: Id, result: FenceResult)
    requires id in s.participants && id in s'.participants && KnownFenced(s', id, boot) && result.incarnation.None?
    requires s'.participants[id] == s.participants[id].(fenceGeneration := s'.fenceFloor)
    ensures RemembersFence(o, s, s', id, boot, result)
  {
    hide KnownFenced, KeepsNewest;
  }

  lemma Bounds(o: Options, s: State, id: ParticipantId)
    requires ViableOptions(o) && Inv(o, s) && id in s.participants
    ensures |s.fences| <= o.limits.maxRecentFences && o.limits.maxRecentFences > 0
    ensures |s.participants[id].fencedBoots| <= o.limits.maxFencedBoots && o.limits.maxFencedBoots > 0
  {
    KnownParticipantOk(o, s, id);
  }

  lemma AppendIsRemember<T>(table: seq<T>, bound: nat, record: T)
    ensures |table| < bound ==> Remember(table, bound, record) == table + [record]
  {
  }

  lemma FencedRing(o: Options, p: Participant, boot: Id, sequence: U64, g: U64)
    requires |p.fencedBoots| <= o.limits.maxFencedBoots && o.limits.maxFencedBoots > 0
    ensures var p' := FencedParticipant(o, p, boot, sequence, g);
            && p'.fenceGeneration == g && p'.incarnationFloor >= sequence
            && (p'.incarnationFloor == p.incarnationFloor || p'.incarnationFloor == sequence)
            && p'.fencedBoots != [] && p'.fencedBoots[|p'.fencedBoots| - 1] == boot
            && KeepsNewest(p.fencedBoots, p'.fencedBoots, o.limits.maxFencedBoots)
  {
    hide Without;
  }

  lemma NewestRemembered<T>(table: seq<T>, bound: nat, record: T)
    ensures var r := Remember(table, bound, record); r != [] && r[|r| - 1] == record
  {
  }

  lemma FoundIsLive(o: Options, s: State, id: ParticipantId, boot: Id)
    requires Inv(o, s) && id in s.participants
    ensures var found := FindIncarnation(s.participants[id], boot);
            && (found.Some? <==> exists q: U64 :: LiveIn(s, id, boot, q))
            && (found.Some? ==> LiveIn(s, id, boot, found.value))
  {
    hide Inv, FindIncarnation, IsLive;
    KnownLiveOk(o, s, id);
    forall q: U64
      ensures LiveIn(s, id, boot, q) <==> FindIncarnation(s.participants[id], boot) == Some(q)
    {
      LiveIsFound(s.participants[id], boot, q);
    }
  }

  /** An operator fence that is recorded takes away exactly the boot it names. */
  lemma FenceRequestTakesAway(o: Options, s: State, req: FenceRequest)
    requires ViableOptions(o) && Inv(o, s)
    ensures var step := FenceWorker(o, s, req);
            step.Done? && step.mutated ==>
              && TakesAway(s, step.state, req.participant, req.boot)
              && RecordsFence(o, s, step.state, req.participant, req.boot, req.reason, req.note, step.result)
  {
    hide Inv, RecordFence, FindAttempt, TakesAway, RecordsFence, Remember;
    var step := FenceWorker(o, s, req);
    if step.Done? && step.mutated {
      FenceTakesAway(o, s, req.participant, req.boot, req.reason, req.note, true);
      FenceWorkerKeeps(o, s, req);
      RecordFenceKeeps(o, s, req.participant, req.boot, req.reason, req.note, true);
      RecordFenceFrame(o, s, req.participant, req.boot, req.reason, req.note, true);
      var fence := RecordFence(o, s, req.participant, req.boot, req.reason, req.note, true);
      RememberingAdmits(o, fence.state, step.state, req.participant);
      TakesAwayOnwards(s, fence.state, step.state, req.participant, req.boot);
      SameRecord(o, s, fence.state, step.state, req.participant, req.boot, req.reason, req.note, step.result);
    }
  }

  lemma SameRecord(o: Options, s: State, s1: State, s': State, id: ParticipantId, boot: Id, reason: FenceReason, note: Bytes, result: FenceResult)
    requires RecordsFence(o, s, s1, id, boot, reason, note, result) && s'.fences == s1.fences && s'.fenceFloor == s1.fenceFloor
    requires SameButTable(s1, s', id)
    ensures RecordsFence(o, s, s', id, boot, reason, note, result)
  {
  }

  lemma TakesAwayOnwards(s: State, s1: State, s': State, id: ParticipantId, boot: Id)
    requires TakesAway(s, s1, id, boot) && forall v :: Admits(s', v) <==> Admits(s1, v)
    ensures TakesAway(s, s', id, boot)
  {
    hide Admits, Holder;
  }

  /** A state that differs in one attempt table admits the same. */
  lemma RememberingAdmits(o: Options, s: State, s': State, id: ParticipantId)
    requires Inv(o, s) && Inv(o, s') && id in s.participants && id in s'.participants
    requires s' == s.(participants := s.participants[id := s.participants[id].(idempotency := s'.participants[id].idempotency)])
    ensures forall v :: Admits(s', v) <==> Admits(s, v)
  {
    hide Inv, Admits, Holder, IsLive;
    forall v: ValidateRequest
      ensures Admits(s', v) <==> Admits(s, v)
    {
      SameLive(s.participants[id], s'.participants[id], v.token.boot, v.token.incarnation);
      SameAdmission(o, s, s', v);
    }
  }

  /** Losing a session takes away exactly the boot it was bound to. */
  lemma SessionLossTakesAway(o: Options, s: State, id: ParticipantId, boot: Id, reason: ClosureReason)
    requires ViableOptions(o) && Inv(o, s)
    ensures var step := LoseSession(o, s, id, boot, reason);
            step.Done? && step.mutated ==>
              && o.fenceOnSessionLoss && TakesAway(s, step.state, id, boot)
              && RecordsFence(o, s, step.state, id, boot, FenceReasonFor(reason), [], step.result)
  {
    hide Inv, RecordFence, TakesAway, RecordsFence, FindIncarnation;
    if id in s.participants && FindIncarnation(s.participants[id], boot).Some? {
      AllParticipantsOk(o, s);
      BootOfLive(o, s, id, boot);
      FenceTakesAway(o, s, id, boot, FenceReasonFor(reason), [], false);
    }
  }

  // ---- registrations ------------------------------------------------------

  /** A token request of this epoch. */
  function TokenFor(s: State, id: ParticipantId, boot: Id, sequence: U64, scope: Scope, expected: Option<U64>): ValidateRequest {
    ValidateRequest(Token(s.epoch, id, boot, sequence), scope, expected, None)
  }

  /** What an accepted registration comes to. Its participant lives on as exactly the incarnation
      answered with, beside those it had if it may run several; each of them may do what the request
      asked for, under the generation answered with; nobody else is touched. */
  ghost predicate Registers(s: State, s': State, req: RegisterRequest, r: RegistrationResult) {
    && r.incarnation.Some? && r.registrationGeneration.Some?
    && r.epoch == s.epoch == s'.epoch && r.coordinatorBoot == s.coordinatorBoot == s'.coordinatorBoot
    && s'.registrationFloor == s.registrationFloor + 1 == r.registrationGeneration.value
    && (forall b: Id, q: U64 :: LiveIn(s', req.participant, b, q) <==>
          (b == req.boot && q == r.incarnation.value) || (LiveIn(s, req.participant, b, q) && req.policy == MultiIncarnation))
    && (forall b: Id, q: U64, x: Scope, e: Option<U64> :: Admits(s', TokenFor(s', req.participant, b, q, x, e)) <==>
          LiveIn(s', req.participant, b, q) && x in req.scopes && (e.Some? ==> e == r.registrationGeneration))
    && (forall v :: !HeldBy(s, v, req.participant) ==> (Admits(s', v) <==> Admits(s, v)))
    && RegisteredAs(s, s', req, r.registrationGeneration.value)
  }

  /** The record of the participant says what it is registered for. */
  predicate RegisteredAs(s: State, s': State, req: RegisterRequest, generation: U64) {
    && req.participant in s'.participants
    && var p' := s'.participants[req.participant];
    && p'.policy == req.policy && !p'.retired && !p'.revalidationRequired
    && forall e :: e in p'.extras ==>
         (e.boot == req.boot && e.registeredAt == generation) || (req.participant in s.participants && e in s.participants[req.participant].extras)
  }

  /** One participant enrolled: its live set, its scopes and its generation; the rest as it was. */
  predicate EnrolsOne(s: State, s': State, req: RegisterRequest, generation: U64, sequence: U64) {
    && s'.epoch == s.epoch && s'.coordinatorBoot == s.coordinatorBoot && s'.grants == s.grants
    && s'.registrationFloor == generation
    && req.participant in s'.participants && s'.participants.Keys == s.participants.Keys + {req.participant}
    && (forall k :: k in s.participants && k != req.participant ==> s'.participants[k] == s.participants[k])
    && s'.participants[req.participant].scopes == req.scopes
    && s'.participants[req.participant].registrationGeneration == generation
    && RegisteredAs(s, s', req, generation)
    && forall b: Id, q: U64 :: LiveIn(s', req.participant, b, q) <==> LiveIn(s, req.participant, b, q) || (b == req.boot && q == sequence)
  }

  lemma EnrolFacts(o: Options, s: State, req: RegisterRequest, commit: bool, mutated: bool)
    ensures var step := EnrolWithinLimits(o, s, req, commit, mutated);
            step.Done? && step.result.outcome == Registered ==>
              && step.result.registrationGeneration.Some? && step.result.incarnation.Some? && s.registrationFloor < U64_MAX
              && step.result.registrationGeneration.value == s.registrationFloor + 1
              && step.result.epoch == s.epoch && step.result.coordinatorBoot == s.coordinatorBoot
              && EnrolsOne(s, step.state, req, s.registrationFloor + 1, step.result.incarnation.value)
  {
    hide IsLive, Workers, Remember;
    var p := ParticipantOrFresh(s, req);
    if s.registrationFloor < U64_MAX && p.nextIncarnation < U64_MAX {
      EnrolledFacts(o, p, req, s.registrationFloor + 1);
      FreshLivesNot(req);
    }
  }

  lemma FreshLivesNot(req: RegisterRequest)
    ensures forall b: Id, q: U64 :: !IsLive(FreshParticipant(req.participant, req.policy), b, q)
  {
  }

  /** An accepted registration is an enrolment, after the fence of an incumbent if there was one. */
  lemma AcceptedIsEnrolled(o: Options, s: State, req: RegisterRequest, commit: bool)
    requires ViableOptions(o) && Inv(o, s) && Accepts(Register(o, s, req, commit))
    ensures var step := Register(o, s, req, commit);
            && step.result.registrationGeneration.Some? && step.result.incarnation.Some? && s.registrationFloor < U64_MAX
            && step.result.registrationGeneration.value == s.registrationFloor + 1
            && step.result.epoch == s.epoch && step.result.coordinatorBoot == s.coordinatorBoot
            && exists s1 :: Inv(o, s1) && Admissible(o, s1, req) && Vacated(s, s1, req)
                            && EnrolsOne(s1, step.state, req, s.registrationFloor + 1, step.result.incarnation.value)
  {
    hide Inv, Screen, RecordFence, EnrolWithinLimits, Admissible, FenceFrame, EnrolsOne, Vacated;
    ScreenRefusals(o, s, req);
    match Screen(o, s, req)
    case Refuse(_) =>
    case Admit =>
      AdmittedIsAdmissible(o, s, req);
      EnrolFacts(o, s, req, commit, false);
      NothingVacated(o, s, req);
    case Replace(incumbent) =>
      var fence := RecordFence(o, s, req.participant, incumbent, Reincarnation, [], false);
      ReplacedIsAdmissible(o, s, req, fence.state);
      EnrolFacts(o, fence.state, req, commit, fence.mutated);
      IncumbentVacates(o, s, req, incumbent);
      VacatedFloor(s, fence.state, req);
  }

  /** Room made for the registration: what a single-incarnation participant ran is gone. */
  predicate Vacated(s: State, s1: State, req: RegisterRequest) {
    && FenceFrame(s, s1, req.participant)
    && (req.participant in s.participants ==>
          forall e :: e in s1.participants[req.participant].extras ==> e in s.participants[req.participant].extras)
    && forall b: Id, q: U64 :: LiveIn(s1, req.participant, b, q) <==> LiveIn(s, req.participant, b, q) && req.policy == MultiIncarnation
  }

  lemma VacatedFloor(s: State, s1: State, req: RegisterRequest)
    requires Vacated(s, s1, req)
    ensures s1.registrationFloor == s.registrationFloor && s1.epoch == s.epoch && s1.coordinatorBoot == s.coordinatorBoot
  {
  }

  lemma NothingVacated(o: Options, s: State, req: RegisterRequest)
    requires Inv(o, s) && Admissible(o, s, req)
    ensures Vacated(s, s, req)
  {
    hide Inv, IsLive;
    if req.participant in s.participants {
      NothingLiveIff(o, s, req.participant);
    }
  }

  lemma IncumbentVacates(o: Options, s: State, req: RegisterRequest, incumbent: Id)
    requires ViableOptions(o) && Inv(o, s) && Screen(o, s, req).Replace? && Screen(o, s, req).incumbent == incumbent
    ensures var fence := RecordFence(o, s, req.participant, incumbent, Reincarnation, [], false);
            fence.Done? ==> Vacated(s, fence.state, req)
  {
    hide Inv, Screen, RecordFence, FenceFrame, IsLive, BootLive;
    IncumbentFacts(o, s, req);
    ReplacesSingle(o, s, req);
    RecordFenceFrame(o, s, req.participant, incumbent, Reincarnation, [], false);
    FencingALiveBootWorks(o, s, req.participant, incumbent, Reincarnation, [], false);
    forall b: Id, q: U64
      ensures var fence := RecordFence(o, s, req.participant, incumbent, Reincarnation, [], false);
              fence.Done? ==> !LiveIn(fence.state, req.participant, b, q)
    {
      FenceLives(o, s, req.participant, incumbent, Reincarnation, [], false, b, q);
      OnlyActive(s.participants[req.participant], b, q);
    }
    var fence := RecordFence(o, s, req.participant, incumbent, Reincarnation, [], false);
    if fence.Done? {
      NoLifeNoExtras(fence.state, req.participant);
    }
  }

  lemma NoLifeNoExtras(s: State, id: ParticipantId)
    requires id in s.participants && forall b: Id, q: U64 :: !LiveIn(s, id, b, q)
    ensures s.participants[id].extras == []
  {
    var p := s.participants[id];
    assert p.extras != [] ==> LiveIn(s, id, p.extras[0].boot, p.extras[0].sequence);
  }

  lemma OnlyActive(p: Participant, b: Id, q: U64)
    requires p.extras == []
    ensures IsLive(p, b, q) ==> b == p.activeBoot
  {
  }

  lemma ReplacesSingle(o: Options, s: State, req: RegisterRequest)
    ensures Screen(o, s, req).Replace? ==> req.policy == SingleIncarnation
  {
    hide LookupFence, FindAttempt, FindIncarnation, IsBoundedText, RegistrableScopes;
  }

  /** A registration that is accepted authorises exactly what it asked for. */
  lemma RegistrationAuthorizes(o: Options, s: State, req: RegisterRequest, commit: bool)
    requires ViableOptions(o) && Inv(o, s) && Accepts(Register(o, s, req, commit))
    ensures var step := Register(o, s, req, commit); Registers(s, step.state, req, step.result)
  {
    hide Inv, Register, Admits, LiveIn, Admissible, Holder;
    var step := Register(o, s, req, commit);
    var s' := step.state;
    AcceptedIsEnrolled(o, s, req, commit);
    RegisterKeeps(o, s, req, commit);
    var s1 :| Inv(o, s1) && Admissible(o, s1, req) && Vacated(s, s1, req)
      && EnrolsOne(s1, s', req, s.registrationFloor + 1, step.result.incarnation.value);
    forall b: Id, q: U64, x: Scope, e: Option<U64>
      ensures Admits(s', TokenFor(s', req.participant, b, q, x, e)) <==>
                LiveIn(s', req.participant, b, q) && x in req.scopes && (e.Some? ==> e == step.result.registrationGeneration)
    {
      AdmitsIff(o, s', TokenFor(s', req.participant, b, q, x, e));
      LiveIsWellPut(o, s', req.participant, b, q);
    }
    forall v | !HeldBy(s, v, req.participant)
      ensures Admits(s', v) <==> Admits(s, v)
    {
      SameHolder(s, s', v);
      if Holder(s, v).Some? {
        UntouchedIsKept(s, s1, s', req, Holder(s, v).value, v.token.boot, v.token.incarnation);
      }
      SameAdmission(o, s, s', v);
    }
  }

  lemma UntouchedIsKept(s: State, s1: State, s': State, req: RegisterRequest, k: ParticipantId, b: Id, q: U64)
    requires FenceFrame(s, s1, req.participant) && k != req.participant
    requires s'.participants.Keys == s1.participants.Keys + {req.participant}
    requires forall j :: j in s1.participants && j != req.participant ==> s'.participants[j] == s1.participants[j]
    ensures Kept(s, s', k, b, q)
  {
    hide IsLive;
  }

  lemma LiveIsWellPut(o: Options, s: State, id: ParticipantId, b: Id, q: U64)
    requires Inv(o, s)
    ensures LiveIn(s, id, b, q) ==> id in s.participants && id.text != [] && b != NIL && q != 0
  {
    hide Inv;
    if id in s.participants {
      SameId(o, s, id);
      KnownLiveOk(o, s, id);
    }
  }

  /** The same, for an element of a batch and the state the whole batch leaves, if no later element
      names its participant. */
  lemma BatchElementAuthorizes(o: Options, s: State, reqs: seq<RegisterRequest>, j: nat)
    requires ViableOptions(o) && Inv(o, s) && j < |reqs|
    requires var batch := RegisterBatch(o, s, reqs);
             batch.Done? && |batch.result| == |reqs| && batch.result[j].outcome == Registered && !batch.result[j].replayed
    requires forall k :: j < k < |reqs| ==> reqs[k].participant != reqs[j].participant
    ensures var batch := RegisterBatch(o, s, reqs);
            var s', r, id := batch.state, batch.result[j], reqs[j].participant;
            && s'.epoch == s.epoch && r.incarnation.Some? && r.registrationGeneration.Some?
            && forall x: Scope, e: Option<U64> ::
                 Admits(s', TokenFor(s', id, reqs[j].boot, r.incarnation.value, x, e)) <==>
                 x in reqs[j].scopes && (e.Some? ==> e == r.registrationGeneration)
  {
    hide Inv, Register, RegisterEach, Admits, LiveIn, Registers;
    AnswerOfElement(o, s, reqs, j);
    var before, after := RegisterEach(o, s, reqs[..j], false).state, RegisterEach(o, s, reqs[..j + 1], false).state;
    RegisterEachKeeps(o, s, reqs[..j]);
    RegistrationAuthorizes(o, before, reqs[j], false);
    RegisterEachKeeps(o, s, reqs[..j + 1]);
    BatchKeeps(o, s, reqs);
    LaterElementsKeep(o, s, reqs, j);
    BatchEpoch(o, s, reqs[..j]);
    var r, id := RegisterBatch(o, s, reqs).result[j], reqs[j].participant;
    RegistersToken(before, after, reqs[j], r);
    var s' := RegisterBatch(o, s, reqs).state;
    forall x: Scope, e: Option<U64>
      ensures Admits(s', TokenFor(s', id, reqs[j].boot, r.incarnation.value, x, e)) <==>
              x in reqs[j].scopes && (e.Some? ==> e == r.registrationGeneration)
    {
      SameTokenAdmission(o, after, s', TokenFor(after, id, reqs[j].boot, r.incarnation.value, x, e));
    }
  }

  lemma RegistersToken(s: State, s': State, req: RegisterRequest, r: RegistrationResult)
    requires Registers(s, s', req, r)
    ensures r.incarnation.Some? && r.registrationGeneration.Some? && s'.epoch == s.epoch
    ensures forall x: Scope, e: Option<U64> ::
              Admits(s', TokenFor(s', req.participant, req.boot, r.incarnation.value, x, e)) <==>
              x in req.scopes && (e.Some? ==> e == r.registrationGeneration)
  {
    hide Admits, LiveIn, Holder;
    assert LiveIn(s', req.participant, req.boot, r.incarnation.value);
  }

  lemma SameTokenAdmission(o: Options, s: State, s': State, v: ValidateRequest)
    requires Inv(o, s) && Inv(o, s') && v.grant.None? && s'.epoch == s.epoch
    requires var id := v.token.participant;
             (id in s.participants <==> id in s'.participants) && (id in s.participants ==> s'.participants[id] == s.participants[id])
    ensures Admits(s', v) <==> Admits(s, v)
  {
    hide Inv, Admits, IsLive;
    AdmitsIff(o, s, v);
    AdmitsIff(o, s', v);
  }

  lemma BatchEpoch(o: Options, s: State, reqs: seq<RegisterRequest>)
    requires ViableOptions(o) && Inv(o, s) && RegisterEach(o, s, reqs, false).Done?
    ensures RegisterEach(o, s, reqs, false).state.epoch == s.epoch
  {
    hide Inv, RegisterEach, Forward;
    BatchAdvances(o, s, reqs);
  }

  lemma RegisterTouchesOne(o: Options, s: State, req: RegisterRequest, k: ParticipantId)
    requires k != req.participant
    ensures var step := Register(o, s, req, false);
            step.Done? ==>
              && (k in step.state.participants <==> k in s.participants)
              && (k in s.participants ==> step.state.participants[k] == s.participants[k])
              && step.state.epoch == s.epoch
  {
    hide Screen, RecordFence, Enrolled, Workers;
    var v := Screen(o, s, req);
    if v.Replace? {
      RecordFenceFrame(o, s, req.participant, v.incumbent, Reincarnation, [], false);
    }
  }

  /** Elements that name other participants leave this one's record alone. */
  lemma {:induction false} LaterElementsKeep(o: Options, s: State, reqs: seq<RegisterRequest>, j: nat)
    requires j < |reqs| && RegisterEach(o, s, reqs, false).Done?
    requires forall k :: j < k < |reqs| ==> reqs[k].participant != reqs[j].participant
    ensures var after := RegisterEach(o, s, reqs[..j + 1], false);
            var all := RegisterEach(o, s, reqs, false);
            var id := reqs[j].participant;
            && after.Done?
            && (id in all.state.participants <==> id in after.state.participants)
            && (id in after.state.participants ==> all.state.participants[id] == after.state.participants[id])
            && all.state.epoch == after.state.epoch
    decreases |reqs|
  {
    hide Register;
    var last := |reqs| - 1;
    if j == last {
      assert reqs[..j + 1] == reqs;
    } else {
      var init := reqs[..last];
      assert init[..j + 1] == reqs[..j + 1];
      LaterElementsKeep(o, s, init, j);
      RegisterTouchesOne(o, RegisterEach(o, s, init, false).state, reqs[last], reqs[j].participant);
    }
  }

  // ---- grants ------------------------------------------------------------

  /** What a grant comes to: under its identifier exactly the boot it was asked for validates, for
      exactly the scopes it was asked for; every other request is answered as before. */
  ghost predicate GrantsTo(s: State, s': State, req: GrantRequest, id: Id, r: GrantResult) {
    && r.grant == Some(id) && r.epoch == s.epoch == s'.epoch && s'.coordinatorBoot == s.coordinatorBoot
    && r.generation == Some(s'.generation) && s'.generation == s.generation + 1
    && (forall x: Scope ::
          Admits(s', ValidateRequest(Token(s'.epoch, req.participant, req.boot, req.incarnation), x, None, Some(id))) <==> x in req.scopes)
    && (forall v: ValidateRequest :: v.grant == Some(id) ==>
          (Admits(s', v) <==>
             && WellPut(v) && v.token.boot == req.boot && LiveIn(s', req.participant, req.boot, v.token.incarnation)
             && v.scope in req.scopes
             && (UpToDate(s', req.participant, v.expectedGeneration)
                 || (req.participant in s'.participants && s'.participants[req.participant].registrationGeneration == s'.generation))))
    && (forall v: ValidateRequest :: v.grant != Some(id) ==> Validate(s', v) == Validate(s, v))
    && Documents(s', req, id)
  }

  /** The grant's own record says where it came from. */
  predicate Documents(s: State, req: GrantRequest, id: Id) {
    && s.grants != []
    && var g := s.grants[|s.grants| - 1];
    && g.id == id && g.incarnation == req.incarnation && g.parent == req.parent && g.provenance == req.provenance
    && (g.delegatorBoot.Some? <==> g.parent.Some?)
    && (g.parent.Some? ==> exists h :: h in s.grants && h.id == g.parent.value && g.delegatorBoot == Some(h.boot))
  }

  /** An accepted grant authorises exactly what it asked for. */
  lemma GrantAuthorizes(o: Options, s: State, req: GrantRequest, id: Id)
    requires ViableOptions(o) && Inv(o, s) && FreshGrantId(s, id)
    requires GrantAuthority(o, s, req, id).Done? && GrantAuthority(o, s, req, id).mutated
    ensures var step := GrantAuthority(o, s, req, id); GrantsTo(s, step.state, req, id, step.result)
  {
    hide Inv, GrantAuthority, Admits, LiveIn, Documents, Validate;
    var s' := GrantAuthority(o, s, req, id).state;
    GrantKeeps(o, s, req, id);
    GrantFacts(o, s, req, id);
    var g := s'.grants[|s'.grants| - 1];
    forall v: ValidateRequest | v.grant == Some(id)
      ensures Admits(s', v) <==> WellPut(v) && GrantAdmits(s', g, v)
    {
      GrantVerdictOnly(o, s', g, v);
    }
    assert forall v: ValidateRequest :: v.grant == Some(id) ==> (GrantAdmits(s', g, v) <==>
      v.token.boot == req.boot && Holds(s', g, v) && v.scope in req.scopes && GrantUpToDate(s', g, v.expectedGeneration));
    forall v: ValidateRequest | v.grant != Some(id)
      ensures Validate(s', v) == Validate(s, v)
    {
      OtherwiseUnchanged(s, s', g, v, req.participant);
    }
    StillLive(o, s, s', req.participant, req.boot, req.incarnation);
    LiveIsWellPut(o, s', req.participant, req.boot, req.incarnation);
  }

  lemma GrantVerdictOnly(o: Options, s: State, g: Grant, v: ValidateRequest)
    requires Inv(o, s) && g in s.grants && v.grant == Some(g.id)
    ensures Admits(s, v) <==> WellPut(v) && GrantAdmits(s, g, v)
  {
    hide Inv, Validate, GrantAdmits, LiveIn, AwaitsRevalidation;
    GrantVerdicts(o, s, v, g);
  }

  lemma StillLive(o: Options, s: State, s': State, id: ParticipantId, boot: Id, sequence: U64)
    requires Inv(o, s) && id in s.participants && SameButTable(s, s', id) && sequence != 0
    requires Evaluate(s, s.participants[id], boot, sequence).code == Current
    ensures LiveIn(s', id, boot, sequence)
  {
    hide Inv, Evaluate, IsLive;
    Evaluated(o, s, id, boot, sequence);
    SameLive(s.participants[id], s'.participants[id], boot, sequence);
  }

  /** Of the participants, at most this one's attempt table differs. */
  predicate SameButTable(s: State, s': State, id: ParticipantId) {
    && s'.participants.Keys == s.participants.Keys
    && (forall k :: k in s.participants && k != id ==> s'.participants[k] == s.participants[k])
    && (id in s.participants ==>
          s'.participants[id] == s.participants[id].(idempotency := s'.participants[id].idempotency))
  }

  lemma GrantFacts(o: Options, s: State, req: GrantRequest, id: Id)
    requires Inv(o, s) && GrantAuthority(o, s, req, id).Done? && GrantAuthority(o, s, req, id).mutated
    ensures var step := GrantAuthority(o, s, req, id);
            var s' := step.state;
            && req.participant in s.participants && req.incarnation != 0
            && Evaluate(s, s.participants[req.participant], req.boot, req.incarnation).code == Current
            && SameButTable(s, s', req.participant) && s'.epoch == s.epoch && s'.coordinatorBoot == s.coordinatorBoot
            && s'.fences == s.fences && |s'.grants| == |s.grants| + 1 && s'.grants[..|s.grants|] == s.grants
            && s.generation < U64_MAX && s'.generation == s.generation + 1
            && step.result.grant == Some(id) && step.result.epoch == s.epoch && step.result.generation == Some(s'.generation)
            && Documents(s', req, id)
            && var g := s'.grants[|s.grants|];
            && g.id == id && g.epoch == s'.epoch && !g.revoked && g.participant == req.participant && g.boot == req.boot
            && g.scopes == req.scopes && g.generation == s'.generation
  {
    hide Inv, FindAttempt, Evaluate, Remember, ScopesWithin;
    var s' := GrantAuthority(o, s, req, id).state;
    assert s'.grants == s.grants + [s'.grants[|s.grants|]];
    if req.parent.Some? {
      var j := IndexOf(s.grants, req.parent.value);
      assert s'.grants[j.value] == s.grants[j.value] && s'.grants[j.value] in s'.grants;
    }
  }

  /** Requests under other grants, or none, are answered as before. */
  lemma OtherwiseUnchanged(s: State, s': State, g: Grant, v: ValidateRequest, id: ParticipantId)
    requires SameButTable(s, s', id) && s'.epoch == s.epoch && s'.fences == s.fences
    requires s'.grants == s.grants + [g] && v.grant != Some(g.id)
    ensures Validate(s', v) == Validate(s, v)
  {
    hide FindRecord, FindIncarnation;
    if v.grant.Some? {
      assert s'.grants[..|s'.grants| - 1] == s.grants;
      assert IndexOf(s'.grants, v.grant.value) == IndexOf(s.grants, v.grant.value);
    }
    forall p: ParticipantId | p in s.participants
      ensures SameEvaluation(s, s', p)
    {
      EvaluatesAlike(s, s', p, id);
    }
  }

  ghost predicate SameEvaluation(s: State, s': State, p: ParticipantId)
    requires p in s.participants && p in s'.participants
  {
    forall b: Id, q: U64 :: Evaluate(s', s'.participants[p], b, q) == Evaluate(s, s.participants[p], b, q)
  }

  lemma EvaluatesAlike(s: State, s': State, p: ParticipantId, id: ParticipantId)
    requires SameButTable(s, s', id) && s'.fences == s.fences && p in s.participants
    ensures SameEvaluation(s, s', p)
  {
    hide LookupFence, FindIncarnation;
    forall b: Id
      ensures FindIncarnation(s'.participants[p], b) == FindIncarnation(s.participants[p], b)
      ensures LookupFence(s', s'.participants[p].id, b) == LookupFence(s, s.participants[p].id, b)
    {
      FindsAlike(s, s', p, id, b);
    }
  }

  lemma FindsAlike(s: State, s': State, p: ParticipantId, id: ParticipantId, b: Id)
    requires SameButTable(s, s', id) && s'.fences == s.fences && p in s.participants
    ensures FindIncarnation(s'.participants[p], b) == FindIncarnation(s.participants[p], b)
    ensures LookupFence(s', s'.participants[p].id, b) == LookupFence(s, s.participants[p].id, b)
  {
    hide FindRecord, FindExtra;
  }

  // ---- revocations -------------------------------------------------------

  /** Grant `a` is `b`, or descends from it. */
  predicate Under(s: State, a: Id, b: Id) {
    && IndexOf(s.grants, a).Some? && IndexOf(s.grants, b).Some?
    && Descends(s.grants, IndexOf(s.grants, a).value, IndexOf(s.grants, b).value)
  }

  /** A well-put request under the grant or what descends from it, granted in this epoch. */
  predicate RecentlyUnder(s: State, v: ValidateRequest, target: Id) {
    && WellPut(v) && v.grant.Some? && Under(s, v.grant.value, target)
    && s.grants[IndexOf(s.grants, v.grant.value).value].epoch == s.epoch
  }

  /** What a revocation comes to: exactly the requests under the grant and what descends from it stop
      being admitted, and are told so. */
  ghost predicate Revokes(s: State, s': State, req: RevokeRequest, r: RevokeResult) {
    && r.outcome == RevokeDone && r.epoch == s.epoch == s'.epoch && s'.coordinatorBoot == s.coordinatorBoot
    && r.generation == Some(s'.generation) && s'.generation == s.generation + 1
    && (forall v :: Admits(s', v) <==> Admits(s, v) && !(v.grant.Some? && Under(s, v.grant.value, req.grant)))
    && (forall v :: RecentlyUnder(s, v, req.grant) ==> Validate(s', v).code == Revoked)
    && |s'.grants| == |s.grants| && IndexOf(s.grants, req.grant).Some?
    && s'.grants[IndexOf(s.grants, req.grant).value].generation == s'.generation
    && (forall i :: 0 <= i < |s.grants| && s'.grants[i] != s.grants[i] ==>
          s'.grants[i].revoked && Under(s, s.grants[i].id, req.grant) && s'.grants[i].revokedAtEpoch == s.epoch)
  }

  lemma RevocationRemoves(o: Options, s: State, req: RevokeRequest)
    requires ViableOptions(o) && Inv(o, s)
    requires RevokeAuthority(o, s, req).Done? && RevokeAuthority(o, s, req).mutated
    ensures var step := RevokeAuthority(o, s, req); Revokes(s, step.state, req, step.result)
    ensures RevokeAuthority(o, s, req).result.derived == |NewlyRevoked(s.grants, IndexOf(s.grants, req.grant).value)| - 1
  {
    hide Inv, RevokeAuthority, Admits, Descends, LiveIn, Validate, NewlyRevoked;
    var s' := RevokeAuthority(o, s, req).state;
    RevokeKeeps(o, s, req);
    RevokeFacts(o, s, req);
    forall v: ValidateRequest
      ensures Admits(s', v) <==> Admits(s, v) && !(v.grant.Some? && Under(s, v.grant.value, req.grant))
      ensures RecentlyUnder(s, v, req.grant) ==> Validate(s', v).code == Revoked
    {
      if v.grant.None? {
        SameTokenAdmission(o, s, s', v);
      } else {
        RevokedVerdict(o, s, s', v, req.grant);
      }
    }
    forall i | 0 <= i < |s.grants| && s'.grants[i] != s.grants[i]
      ensures s'.grants[i].revoked && Under(s, s.grants[i].id, req.grant) && s'.grants[i].revokedAtEpoch == s.epoch
    {
      assert SweptAt(s, s', i, req.grant);
    }
  }

  /** One grant of the vector after a revocation: revoked if it lies under the target, and otherwise as it was. */
  predicate SweptAt(s: State, s': State, i: nat, target: Id)
    requires i < |s.grants| && |s'.grants| == |s.grants|
  {
    var g, g' := s.grants[i], s'.grants[i];
    && g'.id == g.id && g'.epoch == g.epoch && g'.scopes == g.scopes && g'.boot == g.boot && g'.participant == g.participant
    && (if Under(s, g.id, target) then g'.revoked && (g' != g ==> g'.revokedAtEpoch == s.epoch) else g' == g)
  }

  lemma RevokeFacts(o: Options, s: State, req: RevokeRequest)
    requires Inv(o, s) && RevokeAuthority(o, s, req).Done? && RevokeAuthority(o, s, req).mutated
    ensures var step := RevokeAuthority(o, s, req);
            var s' := step.state;
            && s'.participants == s.participants && s'.epoch == s.epoch && s'.coordinatorBoot == s.coordinatorBoot && s'.fences == s.fences
            && s.generation < U64_MAX && s'.generation == s.generation + 1
            && |s'.grants| == |s.grants| && (forall i :: 0 <= i < |s.grants| ==> SweptAt(s, s', i, req.grant))
            && step.result.outcome == RevokeDone && step.result.epoch == s.epoch && step.result.generation == Some(s'.generation)
            && IndexOf(s.grants, req.grant).Some? && s'.grants[IndexOf(s.grants, req.grant).value].generation == s'.generation
            && step.result.derived == |NewlyRevoked(s.grants, IndexOf(s.grants, req.grant).value)| - 1
  {
    hide Inv, FindAttempt, Remember, NewlyRevoked, Descends, RevokeSubtree;
    var t := IndexOf(s.grants, req.grant).value;
    TargetCounts(s.grants, t);
    var s' := RevokeAuthority(o, s, req).state;
    forall i | 0 <= i < |s.grants|
      ensures SweptAt(s, s', i, req.grant)
    {
      FindsAt(o, s, i);
      SweptGrant(s.grants, t, s.epoch, i);
    }
  }

  lemma SweptGrant(grants: seq<Grant>, t: nat, epoch: U64, i: nat)
    requires t < |grants| && i < |grants| && !grants[t].revoked
    ensures RevokeSubtree(grants, t, epoch)[i] ==
            if Descends(grants, i, t) && !grants[i].revoked then Revoke(grants[i], epoch) else grants[i]
    ensures Descends(grants, t, t)
  {
  }

  lemma TargetCounts(grants: seq<Grant>, t: nat)
    requires t < |grants| && !grants[t].revoked
    ensures |NewlyRevoked(grants, t)| >= 1
  {
    assert t in NewlyRevoked(grants, t);
  }

  lemma FindsAt(o: Options, s: State, i: nat)
    requires Inv(o, s) && i < |s.grants|
    ensures IndexOf(s.grants, s.grants[i].id) == Some(i)
  {
    hide ParticipantsOk, FencesOk, TransitionsOk, ControlOk, SumsOk, Rooted;
  }

  lemma RevokedVerdict(o: Options, s: State, s': State, v: ValidateRequest, target: Id)
    requires Inv(o, s) && Inv(o, s') && v.grant.Some? && s'.participants == s.participants && s'.epoch == s.epoch
    requires |s'.grants| == |s.grants| && (forall i :: 0 <= i < |s.grants| ==> SweptAt(s, s', i, target))
    ensures Admits(s', v) <==> Admits(s, v) && !Under(s, v.grant.value, target)
    ensures RecentlyUnder(s, v, target) ==> Validate(s', v).code == Revoked
  {
    hide Inv, Descends, IsLive, Validate, KnownFenced;
    var i := IndexOf(s.grants, v.grant.value);
    if i.Some? {
      var g, g' := s.grants[i.value], s'.grants[i.value];
      assert SweptAt(s, s', i.value, target);
      assert g in s.grants && g' in s'.grants;
      GrantVerdicts(o, s, v, g);
      GrantVerdicts(o, s', v, g');
    } else {
      UnknownGrantVerdict(s, v, v.grant.value);
      forall g' | g' in s'.grants
        ensures g'.id != v.grant.value
      {
        var k :| 0 <= k < |s'.grants| && s'.grants[k] == g';
        assert SweptAt(s, s', k, target);
      }
      UnknownGrantVerdict(s', v, v.grant.value);
    }
  }

  // ---- retirements -------------------------------------------------------

  /** What a retirement comes to: exactly the requests the participant holds stop being admitted, its
      tokens are told it has retired, and it cannot register again. */
  ghost predicate RetiresWholly(o: Options, s: State, s': State, id: ParticipantId) {
    && s'.epoch == s.epoch && s'.coordinatorBoot == s.coordinatorBoot
    && (forall v :: Admits(s', v) <==> Admits(s, v) && !HeldBy(s, v, id))
    && (forall v: ValidateRequest :: v.grant.None? && v.token.participant == id && v.token.epoch == s.epoch && WellPut(v) ==>
          Validate(s', v).code == Retired)
    && (forall req: RegisterRequest, commit :: req.participant == id && ScreenStructure(o, s', req).Admit? ==>
          Register(o, s', req, commit) == Done(s', Refusal(s', RetiredParticipant), false))
    && id in s'.participants && s'.participants[id].incarnationFloor + 1 == s'.participants[id].nextIncarnation
    && !s'.participants[id].revalidationRequired
  }

  lemma RetirementRemoves(o: Options, s: State, req: RetireRequest)
    requires ViableOptions(o) && Inv(o, s) && Retire(o, s, req).Done? && Retire(o, s, req).mutated
    ensures RetiresWholly(o, s, Retire(o, s, req).state, req.participant)
  {
    hide Inv, Retire, Admits, Holder, LiveIn, ScreenStructure, Register, Validate, BootLive;
    var s' := Retire(o, s, req).state;
    RetireKeeps(o, s, req);
    RetireFrame(o, s, req);
    RetireCloses(o, s, req);
    forall v: ValidateRequest
      ensures Admits(s', v) <==> Admits(s, v) && !HeldBy(s, v, req.participant)
    {
      SameHolder(s, s', v);
      AdmittedIsLive(s', v);
      NoBootNoLife(s', req.participant, v.token.boot, v.token.incarnation);
      if !HeldBy(s, v, req.participant) {
        if Holder(s, v).Some? {
          OthersKept(s, s', req.participant, Holder(s, v).value, v.token.boot, v.token.incarnation);
        }
        SameAdmission(o, s, s', v);
      }
    }
    forall v: ValidateRequest | v.grant.None? && v.token.participant == req.participant && v.token.epoch == s.epoch && WellPut(v)
      ensures Validate(s', v).code == Retired
    {
      TokenVerdicts(o, s', v);
    }
    forall q: RegisterRequest, commit: bool | q.participant == req.participant && ScreenStructure(o, s', q).Admit?
      ensures Register(o, s', q, commit) == Done(s', Refusal(s', RetiredParticipant), false)
    {
      RetiredRefused(o, s', q, commit);
    }
  }

  /** The allocator is closed: every sequence it issued is at or below the floor. */
  lemma RetireCloses(o: Options, s: State, req: RetireRequest)
    requires ViableOptions(o) && Inv(o, s) && Retire(o, s, req).Done? && Retire(o, s, req).mutated
    ensures var s' := Retire(o, s, req).state;
            && req.participant in s'.participants
            && s'.participants[req.participant].incarnationFloor + 1 == s'.participants[req.participant].nextIncarnation
            && !s'.participants[req.participant].revalidationRequired
  {
    hide Inv, FenceEach, FindAttempt, LiveBoots, LiveOk, BootLive, Remember, RingOk, TableOk;
    var id := req.participant;
    KnownLiveOk(o, s, id);
    LiveBootsAreLive(s.participants[id]);
    FenceEachKeeps(o, s, id, LiveBoots(s.participants[id]), req.note);
    KnownParticipantOk(o, FenceEach(o, s, id, LiveBoots(s.participants[id]), req.note).state, id);
  }

  lemma RetiredRefused(o: Options, s: State, req: RegisterRequest, commit: bool)
    requires ScreenStructure(o, s, req).Admit? && req.participant in s.participants && s.participants[req.participant].retired
    ensures Register(o, s, req, commit) == Done(s, Refusal(s, RetiredParticipant), false)
  {
    hide ScreenStructure, LookupFence, FindAttempt;
  }

  lemma NoBootNoLife(s: State, id: ParticipantId, boot: Id, sequence: U64)
    requires id in s.participants && forall b :: !BootLive(s.participants[id], b)
    ensures !LiveIn(s, id, boot, sequence)
  {
    LiveHasBoot(s.participants[id], boot, sequence);
  }

  lemma OthersKept(s: State, s': State, id: ParticipantId, k: ParticipantId, b: Id, q: U64)
    requires s'.participants.Keys == s.participants.Keys && k != id
    requires forall j :: j in s.participants && j != id ==> s'.participants[j] == s.participants[j]
    ensures Kept(s, s', k, b, q)
  {
    hide IsLive;
  }

  lemma {:induction false} FenceEachFrame(o: Options, s: State, id: ParticipantId, boots: seq<Id>, note: Bytes)
    ensures var step := FenceEach(o, s, id, boots, note); step.Done? ==> FenceFrame(s, step.state, id)
  {
    hide RecordFence;
    if boots != [] {
      FenceEachFrame(o, s, id, boots[..|boots| - 1], note);
      var before := FenceEach(o, s, id, boots[..|boots| - 1], note);
      if before.Done? {
        RecordFenceFrame(o, before.state, id, boots[|boots| - 1], AdministrativeRevoke, note, false);
      }
    }
  }

  /** A retirement touches no grant and no other participant. */
  lemma RetireFrame(o: Options, s: State, req: RetireRequest)
    ensures var step := Retire(o, s, req);
            step.Done? ==>
              && step.state.epoch == s.epoch && step.state.coordinatorBoot == s.coordinatorBoot && step.state.grants == s.grants
              && step.state.participants.Keys == s.participants.Keys
              && forall j :: j in s.participants && j != req.participant ==> step.state.participants[j] == s.participants[j]
  {
    hide FenceEach, FindAttempt, LiveBoots, RetiredParticipantRecord;
    FenceEachFrame(o, s, req.participant, LiveBootsOf(s, req.participant), req.note);
  }

  // ---- what replacements and retirements record ---------------------------

  /** The record says this boot of this participant was fenced for this reason, in this epoch. */
  predicate Notes(f: FenceRecord, s: State, id: ParticipantId, reason: FenceReason, note: Bytes) {
    f.participant == id && f.reason == reason && f.note == note && f.epoch == s.epoch
  }

  /** Every record not there before notes this. */
  predicate OnlyNotes(s: State, s': State, id: ParticipantId, reason: FenceReason, note: Bytes) {
    forall f :: f in s'.fences ==> f in s.fences || Notes(f, s, id, reason, note)
  }

  lemma FenceOnlyNotes(o: Options, s: State, id: ParticipantId, boot: Id, reason: FenceReason, note: Bytes, defensive: bool)
    ensures var step := RecordFence(o, s, id, boot, reason, note, defensive);
            step.Done? ==> OnlyNotes(s, step.state, id, reason, note) && step.state.epoch == s.epoch
  {
    hide LookupFence, FindIncarnation, FencedParticipant;
  }

  /** Whatever a retirement adds to the history notes it, under its own note. */
  lemma {:induction false} FencesNoteRetirement(o: Options, s: State, id: ParticipantId, boots: seq<Id>, note: Bytes)
    ensures var step := FenceEach(o, s, id, boots, note);
            step.Done? ==> OnlyNotes(s, step.state, id, AdministrativeRevoke, note) && step.state.epoch == s.epoch
  {
    hide RecordFence;
    if boots != [] {
      FencesNoteRetirement(o, s, id, boots[..|boots| - 1], note);
      var before := FenceEach(o, s, id, boots[..|boots| - 1], note);
      if before.Done? {
        FenceOnlyNotes(o, before.state, id, boots[|boots| - 1], AdministrativeRevoke, note, false);
      }
    }
  }

  lemma RetirementNotes(o: Options, s: State, req: RetireRequest)
    ensures var step := Retire(o, s, req);
            step.Done? ==> OnlyNotes(s, step.state, req.participant, AdministrativeRevoke, req.note)
  {
    hide FenceEach, FindAttempt, LiveBoots, RetiredParticipantRecord;
    FencesNoteRetirement(o, s, req.participant, LiveBootsOf(s, req.participant), req.note);
  }

  /** Whatever a registration adds to the history notes a reincarnation. */
  lemma RegistrationNotes(o: Options, s: State, req: RegisterRequest, commit: bool)
    ensures var step := Register(o, s, req, commit); step.Done? ==> OnlyNotes(s, step.state, req.participant, Reincarnation, [])
  {
    hide Screen, RecordFence, Enrolled, Workers;
    var v := Screen(o, s, req);
    if v.Replace? {
      FenceOnlyNotes(o, s, req.participant, v.incumbent, Reincarnation, [], false);
    }
  }

  // ---- epochs ------------------------------------------------------------

  /** What a new epoch comes to: nothing validates any more, tokens and grants of the old epoch are told
      which epoch replaced theirs, and whoever ran something must register again. */
  ghost predicate StartsOver(s: State, s': State) {
    && s'.epoch == s.epoch + 1 && s'.generation == s.generation + 1
    && (forall v :: !Admits(s', v))
    && (forall v: ValidateRequest :: v.grant.None? && v.token.epoch == s.epoch && WellPut(v) ==>
          Validate(s', v).code == StaleEpoch && Validate(s', v).replacedByEpoch == Some(s'.epoch))
    && (forall v: ValidateRequest :: v.grant.Some? && IndexOf(s.grants, v.grant.value).Some? && WellPut(v) ==>
          Validate(s', v).code == StaleEpoch && Validate(s', v).replacedByEpoch == Some(s'.epoch))
    && s'.participants.Keys == s.participants.Keys
    && (forall id :: id in s.participants ==>
          && NothingLive(s', id)
          && (s'.participants[id].revalidationRequired <==> s.participants[id].revalidationRequired || !NothingLive(s, id))
          && KeepsIdentity(s.participants[id], s'.participants[id]))
    && s'.grants == s.grants && s'.fences == s.fences
    && s'.registrationFloor == s.registrationFloor && s'.fenceFloor == s.fenceFloor
  }

  /** All of a participant that a new epoch has no business with. */
  predicate KeepsIdentity(p: Participant, p': Participant) {
    p' == p.(revalidationRequired := p'.revalidationRequired, hasActiveBoot := p'.hasActiveBoot, activeBoot := p'.activeBoot,
             activeIncarnation := p'.activeIncarnation, extras := p'.extras)
  }

  /** The newest transition record, as an operator would read it. */
  predicate RecordsTransition(o: Options, s: State, s': State, id: Id, boot: Id, cause: TransitionCause) {
    && s'.coordinatorBoot == boot
    && s'.transitions != []
    && var t := s'.transitions[|s'.transitions| - 1];
    && t.id == id && t.coordinatorBoot == boot && t.cause == cause && t.fromEpoch == s.epoch && t.toEpoch == s.epoch + 1
    && t.generation == s'.generation && t.provenance == o.provenance
  }

  /** Each of the last epochs keeps its transition record, as many as fit. */
  lemma TransitionsAreKept(o: Options, s: State, boot: Id, cause: TransitionCause, invalidate: bool, transition: Id)
    requires ViableOptions(o) && Inv(o, s) && s.epoch < U64_MAX && s.generation < U64_MAX
    ensures KeepsNewest(s.transitions, MutateEpoch(o, s, boot, cause, invalidate, transition).transitions, o.limits.maxTransitionHistory)
  {
    hide Inv, KeepsNewest, InvalidateAll, Remember;
    TransitionsBounded(o, s);
    RememberKeepsNewest(s.transitions, o.limits.maxTransitionHistory,
                        Transition(transition, s.epoch, s.epoch + 1, cause, boot, s.generation + 1, o.provenance));
  }

  lemma NewEpochStartsOver(o: Options, s: State, s': State)
    requires Inv(o, s) && Inv(o, s') && s'.epoch == s.epoch + 1 && s'.generation == s.generation + 1 && s'.grants == s.grants
    requires s'.participants == InvalidateAll(s.participants) && s'.fences == s.fences
    requires s'.registrationFloor == s.registrationFloor && s'.fenceFloor == s.fenceFloor
    ensures StartsOver(s, s')
  {
    hide Inv, Admits, Validate;
    forall v: ValidateRequest
      ensures !Admits(s', v)
    {
      AdmittedIsLive(s', v);
    }
    forall v: ValidateRequest | v.grant.None? && v.token.epoch == s.epoch && WellPut(v)
      ensures Validate(s', v).code == StaleEpoch && Validate(s', v).replacedByEpoch == Some(s'.epoch)
    {
      TokenVerdicts(o, s', v);
      AnswerFields(o, s', v);
    }
    forall v: ValidateRequest | v.grant.Some? && IndexOf(s.grants, v.grant.value).Some? && WellPut(v)
      ensures Validate(s', v).code == StaleEpoch && Validate(s', v).replacedByEpoch == Some(s'.epoch)
    {
      var g := s.grants[IndexOf(s.grants, v.grant.value).value];
      assert g in s'.grants;
      GrantEpochs(o, s, g);
      GrantVerdicts(o, s', v, g);
      AnswerFields(o, s', v);
    }
    forall id | id in s.participants
      ensures NothingLive(s', id)
      ensures s'.participants[id].revalidationRequired <==> s.participants[id].revalidationRequired || !NothingLive(s, id)
    {
      NothingLiveIff(o, s, id);
      NothingLiveIff(o, s', id);
    }
  }

  lemma GrantEpochs(o: Options, s: State, g: Grant)
    requires Inv(o, s) && g in s.grants
    ensures g.epoch <= s.epoch
  {
  }

  /** An advance starts over under the same coordinator. */
  lemma AdvanceStartsOver(o: Options, s: State, req: AdvanceRequest, transition: Id)
    requires ViableOptions(o) && Inv(o, s) && FreshTransitionId(s, transition)
    requires AdvanceEpoch(o, s, req, transition).Done? && AdvanceEpoch(o, s, req, transition).mutated
    ensures var step := AdvanceEpoch(o, s, req, transition);
            && StartsOver(s, step.state) && RecordsTransition(o, s, step.state, transition, s.coordinatorBoot, req.cause)
            && KeepsNewest(s.transitions, step.state.transitions, o.limits.maxTransitionHistory)
            && step.result == AdvanceResult(Advanced, s.epoch + 1, s.coordinatorBoot, Some(transition), false)
  {
    hide Inv, FindAttempt, StartsOver, InvalidateAll, Remember, FreshTransitionId, KeepsNewest;
    AdvanceKeeps(o, s, req, transition);
    TransitionsAreKept(o, s, s.coordinatorBoot, req.cause, true, transition);
    NewestRemembered(s.transitions, o.limits.maxTransitionHistory,
                     Transition(transition, s.epoch, s.epoch + 1, req.cause, s.coordinatorBoot, s.generation + 1, o.provenance));
    NewEpochStartsOver(o, s, AdvanceEpoch(o, s, req, transition).state);
  }

  /** An opening hands the store to a new coordinator: its boot is the one the state names from then on,
      and the one the newest transition carries; an established store starts over. */
  lemma OpeningHandsOver(o: Options, s: State, boot: Id, transition: Id)
    requires ViableOptions(o) && Inv(o, s) && FreshTransitionId(s, transition) && (s.epoch == 0 ==> s == PRISTINE)
    requires Reopen(o, s, boot, transition).Done?
    ensures var step := Reopen(o, s, boot, transition);
            && step.mutated && step.result == s.epoch + 1 && StartsOver(s, step.state)
            && RecordsTransition(o, s, step.state, transition, boot, if s.epoch == 0 then CoordinatorStart else CoordinatorRestart)
            && KeepsNewest(s.transitions, step.state.transitions, o.limits.maxTransitionHistory)
  {
    hide Inv, StartsOver, InvalidateAll, Remember, FreshTransitionId, KeepsNewest;
    ReopenKeeps(o, s, boot, transition);
    TransitionsAreKept(o, s, boot, if s.epoch == 0 then CoordinatorStart else CoordinatorRestart, s.epoch != 0, transition);
    NewestRemembered(s.transitions, o.limits.maxTransitionHistory,
                     Transition(transition, s.epoch, s.epoch + 1, if s.epoch == 0 then CoordinatorStart else CoordinatorRestart,
                                boot, s.generation + 1, o.provenance));
    NobodyInvalidated();
    NewEpochStartsOver(o, s, Reopen(o, s, boot, transition).state);
  }

  lemma TransitionsBounded(o: Options, s: State)
    requires ViableOptions(o) && Inv(o, s)
    ensures |s.transitions| <= o.limits.maxTransitionHistory && o.limits.maxTransitionHistory > 0
  {
  }

  lemma NobodyInvalidated()
    ensures InvalidateAll(map[]) == map[]
  {
  }

  // ---- who coordinates ---------------------------------------------------

  lemma RegisterKeepsCoordinator(o: Options, s: State, req: RegisterRequest, commit: bool)
    ensures var step := Register(o, s, req, commit); step.Done? ==> step.state.coordinatorBoot == s.coordinatorBoot
  {
    hide Screen, RecordFence, Enrolled, Workers;
    var v := Screen(o, s, req);
    if v.Replace? {
      RecordFenceFrame(o, s, req.participant, v.incumbent, Reincarnation, [], false);
    }
  }

  lemma {:induction false} BatchKeepsCoordinator(o: Options, s: State, reqs: seq<RegisterRequest>)
    ensures var step := RegisterEach(o, s, reqs, false); step.Done? ==> step.state.coordinatorBoot == s.coordinatorBoot
  {
    hide Register;
    if reqs != [] {
      BatchKeepsCoordinator(o, s, reqs[..|reqs| - 1]);
      var before := RegisterEach(o, s, reqs[..|reqs| - 1], false);
      if before.Done? {
        RegisterKeepsCoordinator(o, before.state, reqs[|reqs| - 1], false);
      }
    }
  }

  /** No operation but an opening changes who coordinates. */
  lemma OperationKeepsCoordinator(o: Options, s: State, op: Op)
    requires Apply(o, s, op).Some?
    ensures Apply(o, s, op).value.coordinatorBoot == if op.DoReopen? then op.coordinatorBoot else s.coordinatorBoot
  {
    hide Register, RegisterEach, RecordFence, Retire, FindAttempt, Evaluate, MayDelegate, Remember, IndexOf, RevokeSubtree, NewlyRevoked, InvalidateAll, FindIncarnation;
    match op
    case DoRegister(req) => RegisterKeepsCoordinator(o, s, req, true);
    case DoBatch(reqs) => BatchKeepsCoordinator(o, s, reqs);
    case DoFence(req) => RecordFenceFrame(o, s, req.participant, req.boot, req.reason, req.note, true);
    case DoLoseSession(id, boot, reason) => RecordFenceFrame(o, s, id, boot, FenceReasonFor(reason), [], false);
    case DoRetire(req) => RetireFrame(o, s, req);
    case DoGrant(req, id) =>
    case DoRevoke(req) =>
    case DoAdvance(req, t) =>
    case DoReopen(boot, t) =>
  }

  /** Along a run the coordinator is the one that opened the store last. */
  lemma {:induction false} CoordinatorIsLastOpener(o: Options, trace: seq<State>, ops: seq<Op>, i: nat, k: nat)
    requires ViableOptions(o) && IsRun(o, trace, ops) && i <= k < |trace|
    requires forall j :: i <= j < k ==> !ops[j].DoReopen?
    ensures trace[k].coordinatorBoot == trace[i].coordinatorBoot
    ensures i > 0 && ops[i - 1].DoReopen? ==> trace[k].coordinatorBoot == ops[i - 1].coordinatorBoot
    decreases k
  {
    hide Inv, Opened, BootsUnique, Follows, Apply;
    if i < k {
      CoordinatorIsLastOpener(o, trace, ops, i, k - 1);
      RunStep(o, trace, ops, k - 1);
      OperationKeepsCoordinator(o, trace[k - 1], ops[k - 1]);
    } else if i > 0 {
      RunStep(o, trace, ops, i - 1);
      OperationKeepsCoordinator(o, trace[i - 1], ops[i - 1]);
    }
  }

  /** And at first the one that opened the empty store. */
  lemma FirstCoordinator(o: Options, s: State)
    requires Opened(o, s)
    ensures exists boot, t :: FreshTransitionId(PRISTINE, t) && Reopen(o, PRISTINE, boot, t).Done? && Reopen(o, PRISTINE, boot, t).state == s
                              && s.coordinatorBoot == boot
  {
    hide InvalidateAll, Remember, FreshTransitionId;
  }
}
