/** What an operation has put on the vector by the time it is saved: that it is the abstract
    operation, that the save accepts it, and what undoing it would leave. */
module Settlement {
  import opened Basics
  import opened Model
  import opened Sorting
  import opened Forest
  import opened Authority
  import opened Canonical
  import opened Invariant
  import opened Preservation
  import opened Batch
  import opened Stale
  import opened Retirement
  import opened Runs
  import opened Completeness
  import opened Indexes
  import opened Undoing
  import opened Refinement
  import opened Validator

  // ---- vectors between and within operations ------------------------------

  /** What the vector satisfies between operations. */
  ghost predicate ValidState(o: Options, d: DurableState) {
    && ViableOptions(o) && d.epoch != 0
    && SortedById(d.participants) && DistinctParticipants(d.participants)
    && Inv(o, Abs(d)) && BootsUnique(Abs(d))
  }

  /** An operation left this vector to be saved: it stands for the state the operation promises. */
  ghost predicate Reached<R>(o: Options, spec: Step<R>, d: DurableState) {
    && ViableOptions(o) && d.epoch != 0 && DistinctParticipants(d.participants)
    && spec.Done? && spec.mutated && spec.state == Abs(d) && Inv(o, Abs(d))
  }

  /** What the save makes of it: accepted exactly when no boot is live twice, and valid again. */
  lemma ReachedSaves<R>(o: Options, spec: Step<R>, d: DurableState)
    requires Reached(o, spec, d)
    ensures var c := Canonicalized(d);
            && DistinctParticipants(d.participants) && DistinctParticipants(c.participants) && SortedById(c.participants)
            && (ValidDurable(c) <==> BootsUnique(spec.state))
            && (BootsUnique(spec.state) ==> ValidState(o, c))
            && spec.Done? && spec.mutated && spec.state == Abs(c) && spec.state == Abs(d)
  {
    hide Inv, ToMap, DistinctParticipants, ValidDurable, BootsUnique, SortedById, Canonicalized;
    CanonicalizedRefines(d);
    AcceptsIff(o, Canonicalized(d));
  }

  lemma ValidStateFacts(o: Options, d: DurableState)
    requires ValidState(o, d)
    ensures DistinctParticipants(d.participants) && SortedById(d.participants)
    ensures ViableOptions(o) && d.epoch != 0 && Inv(o, Abs(d)) && BootsUnique(Abs(d))
  {
  }

  // ---- fences -------------------------------------------------------------

  /** One fence carried out on the vector at position `i`, with the undo actions it logged. */
  predicate FenceApplied(o: Options, d: DurableState, d': DurableState, i: nat, boot: Id, reason: FenceReason, note: Bytes,
                         log: seq<UndoAction>) {
    && i < |d.participants| && d.fenceFloor < U64_MAX && d.generation < U64_MAX
    && var sequence := FindIncarnation(d.participants[i], boot);
    if sequence.Some? then d' == FenceAt(o, d, i, boot, sequence.value, reason, note) && log == FenceLog(d, i)
    else d' == PreventAt(d, i, boot, reason, note) && log == PreventLog(d, i)
  }

  lemma FenceAppliedRefines(o: Options, d: DurableState, d': DurableState, i: nat, boot: Id, reason: FenceReason, note: Bytes,
                            log: seq<UndoAction>)
    requires DistinctParticipants(d.participants) && FenceApplied(o, d, d', i, boot, reason, note, log)
    ensures var id := d.participants[i].id;
            var sequence := FindIncarnation(d.participants[i], boot);
            && DistinctParticipants(d'.participants) && id in Abs(d).participants
            && Abs(d).participants[id] == d.participants[i]
            && ParticipantIndex(d'.participants) == ParticipantIndex(d.participants)
            && |d'.participants| == |d.participants| && d'.participants[i].id == id
            && Abs(d') == if sequence.Some? then LiveFence(o, Abs(d), id, boot, sequence.value, reason, note)
                          else PreventiveFence(Abs(d), id, boot, reason, note)
  {
    hide DistinctParticipants, ToMap, ParticipantIndex, FencedParticipant, Remember, FindIncarnation, FenceAt, PreventAt, LiveFence, PreventiveFence;
    Member(d, i);
    var sequence := FindIncarnation(d.participants[i], boot);
    if sequence.Some? {
      FenceAtRefines(o, d, i, boot, sequence.value, reason, note);
    } else {
      PreventAtRefines(d, i, boot, reason, note);
    }
  }

  /** Fencing a live boot of a well-formed participant takes one worker out of the count. */
  lemma FenceAppliedCounts(o: Options, d: DurableState, d': DurableState, i: nat, boot: Id, reason: FenceReason, note: Bytes,
                           log: seq<UndoAction>)
    requires DistinctParticipants(d.participants) && FenceApplied(o, d, d', i, boot, reason, note, log)
    requires DistinctBoots(d.participants[i].extras)
    ensures SumLive(d'.participants) ==
            SumLive(d.participants) - (if FindIncarnation(d.participants[i], boot).Some? then 1 else 0)
  {
    hide DistinctParticipants, ToMap, ParticipantIndex, SumLive, Remember, RemoveLive, BootLive, IsLive, FindIncarnation;
    var p := d.participants[i];
    var sequence := FindIncarnation(p, boot);
    if sequence.Some? {
      FenceAtRefines(o, d, i, boot, sequence.value, reason, note);
      FindsLive(p, boot);
      RemovesOne(p, boot);
      SameCount(RemoveLive(p, boot), FencedParticipant(o, p, boot, sequence.value, d.fenceFloor + 1));
    } else {
      PreventAtRefines(d, i, boot, reason, note);
    }
  }

  /** No participant lists a boot twice among its extras: all a fence needs to remove exactly one
      incarnation, and all that is sure to hold while operations look fences up through an old index. */
  predicate Unrepeated(ps: seq<Participant>) {
    forall i :: 0 <= i < |ps| ==> DistinctBoots(ps[i].extras)
  }

  lemma RemovesOne(p: Participant, boot: Id)
    requires DistinctBoots(p.extras)
    ensures DistinctBoots(RemoveLive(p, boot).extras)
    ensures BootLive(p, boot) ==> LiveCount(RemoveLive(p, boot)) == LiveCount(p) - 1
    ensures forall b :: AmongExtras(RemoveLive(p, boot).extras, b) ==> AmongExtras(p.extras, b)
  {
    hide DistinctBoots, AmongExtras, Without, HoldsExtra;
    if p.hasActiveBoot && p.activeBoot == boot {
      if p.extras != [] {
        OneFewer(p.extras);
      }
    } else {
      WithoutFacts(p.extras, boot);
    }
  }

  lemma OneFewer(extras: seq<ActiveIncarnation>)
    requires DistinctBoots(extras) && extras != []
    ensures DistinctBoots(extras[1..]) && forall b :: AmongExtras(extras[1..], b) ==> AmongExtras(extras, b)
  {
    assert forall i :: 0 <= i < |extras| - 1 ==> extras[1..][i] == extras[i + 1];
  }

  lemma FenceAppliedUnrepeated(o: Options, d: DurableState, d': DurableState, i: nat, boot: Id, reason: FenceReason, note: Bytes,
                               log: seq<UndoAction>)
    requires FenceApplied(o, d, d', i, boot, reason, note, log) && Unrepeated(d.participants)
    ensures Unrepeated(d'.participants)
    ensures forall b :: AmongExtras(d'.participants[i].extras, b) ==> AmongExtras(d.participants[i].extras, b)
  {
    hide DistinctBoots, AmongExtras, RemoveLive, FindIncarnation, Remember;
    RemovesOne(d.participants[i], boot);
  }

  lemma EnrolUnrepeated(o: Options, d: DurableState, req: RegisterRequest, commit: bool)
    requires Unrepeated(d.participants) && CountersLeft(d, req.participant, commit)
    requires var i := Place(d.participants, req.participant);
             i < |d.participants| ==> !AmongExtras(d.participants[i].extras, req.boot)
    ensures Unrepeated(EnrolAt(o, d, Place(d.participants, req.participant), req, commit).participants)
  {
    hide Place, Remember;
  }

  lemma InvUnrepeated(o: Options, d: DurableState)
    requires DistinctParticipants(d.participants) && Inv(o, Abs(d))
    ensures Unrepeated(d.participants)
  {
    hide Inv, ToMap, DistinctParticipants;
    forall i | 0 <= i < |d.participants|
      ensures DistinctBoots(d.participants[i].extras)
    {
      Member(d, i);
      KnownLiveOk(o, Abs(d), d.participants[i].id);
    }
  }

  /** The lookup through the runtime's index is the lookup through the history it was filed over. */
  lemma IndexedIsThrough(d: DurableState, filed: seq<FenceRecord>, i: nat, boot: Id)
    requires DistinctParticipants(d.participants) && i < |d.participants|
    ensures IndexedLookup(d, FenceIndex(filed), i, boot) == LookupThrough(Abs(d), filed, d.participants[i].id, boot)
  {
    hide ToMap, DistinctParticipants, FenceIndex, FirstListed;
    Member(d, i);
  }

  /** The vector-level fence is the abstract one. */
  lemma FenceMeets(o: Options, d: DurableState, d': DurableState, i: nat, boot: Id, reason: FenceReason, note: Bytes,
                   defensive: bool, lookup: FenceLookup, log: seq<UndoAction>)
    requires DistinctParticipants(d.participants) && FenceApplied(o, d, d', i, boot, reason, note, log) && !lookup.fenced
    requires var sequence := FindIncarnation(d.participants[i], boot);
             sequence.None? ==> defensive && |d.fences| < o.limits.maxRecentFences
    ensures DistinctParticipants(d'.participants)
    ensures RecordFenceGiven(o, Abs(d), lookup, d.participants[i].id, boot, reason, note, defensive) ==
            Done(Abs(d'), FenceResult(FenceDone, d.epoch, Some(d.fenceFloor + 1), FindIncarnation(d.participants[i], boot)), true)
  {
    hide DistinctParticipants, ToMap, ParticipantIndex, FindIncarnation, FenceAt, PreventAt, LiveFence, PreventiveFence;
    FenceAppliedRefines(o, d, d', i, boot, reason, note, log);
  }

  lemma AppliedIs(o: Options, d: DurableState, d': DurableState, i: nat, boot: Id, reason: FenceReason, note: Bytes,
                  log: seq<UndoAction>)
    requires i < |d.participants| && d.fenceFloor < U64_MAX && d.generation < U64_MAX
    requires var sequence := FindIncarnation(d.participants[i], boot);
             if sequence.Some? then d' == FenceAt(o, d, i, boot, sequence.value, reason, note) && log == FenceLog(d, i)
             else d' == PreventAt(d, i, boot, reason, note) && log == PreventLog(d, i)
    ensures FenceApplied(o, d, d', i, boot, reason, note, log)
  {
  }

  lemma UnknownFence(o: Options, s: State, lookup: FenceLookup, id: ParticipantId, boot: Id, reason: FenceReason, note: Bytes,
                     defensive: bool)
    ensures id !in s.participants ==>
              RecordFenceGiven(o, s, lookup, id, boot, reason, note, defensive) == Done(s, FenceResult(FenceUnknownParticipant, s.epoch, None, None), false)
  {
  }

  /** The cases in which no fence is recorded. */
  lemma FenceRefusals(o: Options, s: State, lookup: FenceLookup, id: ParticipantId, boot: Id, reason: FenceReason, note: Bytes,
                      defensive: bool)
    requires id in s.participants
    ensures var step := RecordFenceGiven(o, s, lookup, id, boot, reason, note, defensive);
            var p, sequence := s.participants[id], FindIncarnation(s.participants[id], boot);
            if lookup.fenced then
              step == Done(s, FenceResult(AlreadyFenced, s.epoch, Some(p.fenceGeneration),
                                          if lookup.record.Some? then Some(lookup.record.value.incarnation) else None), false)
            else if sequence.None? && !defensive then
              step == Done(s, FenceResult(AlreadyFenced, s.epoch, Some(p.fenceGeneration), None), false)
            else if sequence.None? && |s.fences| >= o.limits.maxRecentFences then
              step == Done(s, FenceResult(FenceLimit, s.epoch, None, None), false)
            else step.Threw? <==> s.fenceFloor == U64_MAX || s.generation == U64_MAX
  {
    hide FindIncarnation, LiveFence, PreventiveFence;
  }

  /** A fence request, once the fence and the attempt are on the vector: what a save makes of it,
      and what a failed save leaves. */
  lemma FenceRequestSettles(o: Options, d: DurableState, d1: DurableState, i: nat, req: FenceRequest, result: FenceResult,
                            log: seq<UndoAction>, record: AttemptRecord)
    requires ValidState(o, d) && i < |d.participants| && d.participants[i].id == req.participant
    requires req.attempt != NIL && req.boot != NIL && req.participant.text != [] && req.expectedEpoch == d.epoch
    requires FindAttempt(d.participants[i].idempotency, req.attempt).None?
    requires DistinctParticipants(d1.participants)
    requires RecordFence(o, Abs(d), req.participant, req.boot, req.reason, req.note, true) == Done(Abs(d1), result, true)
    requires FenceApplied(o, d, d1, i, req.boot, req.reason, req.note, log)
    requires record == AttemptRecord(req.attempt, FenceKind, o.digest(Fencing(req)), FenceCode(result.outcome),
                                     if result.fenceGeneration.Some? then result.fenceGeneration.value else 0,
                                     if result.incarnation.Some? then result.incarnation.value else 0, NIL)
    ensures |d1.participants| == |d.participants|
    ensures var d2 := RememberAt(o, d1, i, record);
            var spec := FenceWorker(o, Abs(d), req);
            && Reached(o, spec, d2) && spec.result == result && BootsUnique(spec.state)
            && var after := Rollback(Canonicalized(d2), log);
               && after != d
               && var j := PositionOf(after.participants, req.participant);
                  j.Some? && FindAttempt(after.participants[j.value].idempotency, req.attempt).Some?
  {
    hide Inv, DistinctParticipants, SortedById, ToMap, BootsUnique, RecordFence, FindAttempt, Canonicalized, Rollback, FenceApplied, PositionOf, ViableOptions, Remember;
    FenceAppliedRefines(o, d, d1, i, req.boot, req.reason, req.note, log);
    RememberAtRefines(o, d1, i, record);
    Member(d, i);
    FenceWorkerKeeps(o, Abs(d), req);
    OtherStepsKeepBootsUnique(o, Abs(d), DoFence(req));
    FailedFenceRequest(o, d, d1, i, req, log, record);
  }

  /** A lost session's fence, once on the vector: what a save makes of it, and exactly when a
      failed save leaves no trace. */
  lemma LostSessionSettles(o: Options, d: DurableState, d1: DurableState, i: nat, boot: Id, reason: ClosureReason,
                           result: FenceResult, log: seq<UndoAction>)
    requires ValidState(o, d) && i < |d.participants| && DistinctParticipants(d1.participants)
    requires o.fenceOnSessionLoss && FindIncarnation(d.participants[i], boot).Some?
    requires RecordFence(o, Abs(d), d.participants[i].id, boot, FenceReasonFor(reason), [], false) == Done(Abs(d1), result, true)
    requires FenceApplied(o, d, d1, i, boot, FenceReasonFor(reason), [], log)
    ensures var spec := LoseSession(o, Abs(d), d.participants[i].id, boot, reason);
            && Reached(o, spec, d1) && spec.result == result && BootsUnique(spec.state)
            && var after := Rollback(Canonicalized(d1), log);
               && after == d.(fences := after.fences)
               && (after == d <==> |d.fences| < o.limits.maxRecentFences)
  {
    hide Inv, DistinctParticipants, SortedById, ToMap, BootsUnique, RecordFence, Canonicalized, Rollback, FindIncarnation, FenceReasonFor, FenceAt;
    Member(d, i);
    var id := d.participants[i].id;
    LoseSessionKeeps(o, Abs(d), id, boot, reason);
    OtherStepsKeepBootsUnique(o, Abs(d), DoLoseSession(id, boot, reason));
    RecordFenceFrame(o, Abs(d), id, boot, FenceReasonFor(reason), [], false);
    LastFenceBounded(o, d);
    FenceRollback(o, d, i, boot, FindIncarnation(d.participants[i], boot).value, FenceReasonFor(reason), []);
  }

  lemma LastFenceBounded(o: Options, d: DurableState)
    requires DistinctParticipants(d.participants) && Inv(o, Abs(d))
    ensures d.fences != [] ==> d.fences[|d.fences| - 1].generation <= d.fenceFloor
  {
    hide ParticipantsOk, GrantsOk, TransitionsOk, ControlOk, SumsOk, BootLive;
    if d.fences != [] {
      assert FenceOk(Abs(d), d.fences[|d.fences| - 1]);
    }
  }

  lemma FailedFenceRequest(o: Options, d: DurableState, d1: DurableState, i: nat, req: FenceRequest,
                           log: seq<UndoAction>, record: AttemptRecord)
    requires SortedById(d.participants) && DistinctParticipants(d.participants)
    requires i < |d.participants| && d.participants[i].id == req.participant && record.attempt == req.attempt
    requires FindAttempt(d.participants[i].idempotency, req.attempt).None?
    requires FenceApplied(o, d, d1, i, req.boot, req.reason, req.note, log)
    requires |d1.participants| == |d.participants|
    ensures var after := Rollback(Canonicalized(RememberAt(o, d1, i, record)), log);
            && after != d
            && var j := PositionOf(after.participants, req.participant);
               j.Some? && FindAttempt(after.participants[j.value].idempotency, req.attempt).Some?
  {
    hide DistinctParticipants, SortedById, FindAttempt, Canonicalized, Rollback, PositionOf, Remember, FindIncarnation, FencedParticipant;
    var p := d.participants[i];
    var sequence := FindIncarnation(p, req.boot);
    var d2 := RememberAt(o, d1, i, record);
    if sequence.Some? {
      FencedKeepsId(o, p, req.boot, sequence.value, d.fenceFloor + 1);
      FencedKeepsTable(o, p, req.boot, sequence.value, d.fenceFloor + 1);
    }
    InPlaceStaysSorted(d.participants, i, d1.participants[i]);
    InPlaceStaysSorted(d1.participants, i, d2.participants[i]);
    RememberedAttemptSurvives(o, d, d2, i, record, log);
    var after := Rollback(Canonicalized(d2), log);
    SortedTablesDistinct(d2, after, log);
    PositionIs(after.participants, i);
  }

  lemma SortedTablesDistinct(d2: DurableState, after: DurableState, log: seq<UndoAction>)
    requires SortedById(d2.participants) && after == Rollback(Canonicalized(d2), log)
    requires forall k :: 0 <= k < |log| ==> !PutsRecordsBack(log[k])
    ensures DistinctParticipants(after.participants)
  {
    CanonicalizedSorted(d2);
    SortedIsDistinct(d2.participants);
    RollbackKeepsTables(d2, log);
  }

  lemma SameCount(p: Participant, q: Participant)
    requires q.hasActiveBoot == p.hasActiveBoot && q.extras == p.extras
    ensures LiveCount(q) == LiveCount(p)
  {
  }

  // ---- registrations ------------------------------------------------------

  /** Where the record of a participant is, or will be appended. */
  function Place(ps: seq<Participant>, id: ParticipantId): (i: nat)
    ensures i <= |ps| && (i < |ps| ==> ps[i].id == id)
    ensures i == |ps| ==> forall k :: 0 <= k < |ps| ==> ps[k].id != id
  {
    var i := PositionOf(ps, id);
    if i.Some? then i.value else |ps|
  }

  lemma PlaceIs(d: DurableState, id: ParticipantId)
    requires DistinctParticipants(d.participants)
    ensures Place(d.participants, id) < |d.participants| <==> id in Abs(d).participants
    ensures var i := Place(d.participants, id);
            i < |d.participants| ==> Abs(d).participants[id] == d.participants[i]
  {
    hide ToMap, DistinctParticipants, PositionOf;
    ToMapFacts(d.participants);
  }

  function NextSequence(d: DurableState, id: ParticipantId): U64 {
    var i := Place(d.participants, id);
    if i < |d.participants| then d.participants[i].nextIncarnation else 1
  }

  predicate CountersLeft(d: DurableState, id: ParticipantId, commit: bool) {
    d.registrationFloor < U64_MAX && NextSequence(d, id) < U64_MAX && (commit ==> d.generation < U64_MAX)
  }

  /** Enrolment on the vector is enrolment, within the same limits. */
  lemma EnrolMeets(o: Options, d: DurableState, req: RegisterRequest, commit: bool, mutated: bool)
    requires DistinctParticipants(d.participants)
    ensures var i := Place(d.participants, req.participant);
            var spec := EnrolWithinLimits(o, Abs(d), req, commit, mutated);
            if SumLive(d.participants) >= o.limits.maxActiveWorkers then
              spec == Done(Abs(d), Refusal(Abs(d), RegisterLimit), mutated)
            else if !CountersLeft(d, req.participant, commit) then spec.Threw?
            else
              var e := EnrolAt(o, d, i, req, commit);
              && DistinctParticipants(e.participants)
              && spec == Done(Abs(e), RegistrationResult(Registered, d.epoch, d.coordinatorBoot, Some(d.registrationFloor + 1),
                                                         Some(NextSequence(d, req.participant)), false), true)
              && ParticipantIndex(e.participants) == ParticipantIndex(d.participants)[req.participant := i]
              && SumLive(e.participants) == SumLive(d.participants) + 1
  {
    hide ToMap, DistinctParticipants, PositionOf, ParticipantIndex, SumLive, Enrol, EnrolAt, Place, LiveCount;
    var i := Place(d.participants, req.participant);
    PlaceIs(d, req.participant);
    SumLiveIsTotal(d.participants);
    if CountersLeft(d, req.participant, commit) {
      EnrolAtRefines(o, d, i, req, commit);
    }
  }

  /** A registration accepted on the vector, with the undo actions it logged. */
  ghost predicate RegistrationApplied(o: Options, d: DurableState, d': DurableState, req: RegisterRequest, commit: bool,
                                      replaced: Option<Id>, log: seq<UndoAction>)
  {
    var i := Place(d.participants, req.participant);
    if replaced.None? then
      CountersLeft(d, req.participant, commit) && d' == EnrolAt(o, d, i, req, commit) && log == EnrolLog(d, i, commit)
    else
      exists fenced, first ::
        && FenceApplied(o, d, fenced, i, replaced.value, Reincarnation, [], first)
        && i == Place(fenced.participants, req.participant)
        && CountersLeft(fenced, req.participant, commit) && d' == EnrolAt(o, fenced, i, req, commit)
        && log == first + EnrolLog(fenced, i, commit)
  }

  lemma RegistrationAppliedIs(o: Options, d: DurableState, fenced: DurableState, d': DurableState, req: RegisterRequest, commit: bool,
                              replaced: Option<Id>, undo: seq<UndoAction>, first: seq<UndoAction>, undone: seq<UndoAction>)
    requires var i := Place(fenced.participants, req.participant);
             CountersLeft(fenced, req.participant, commit) && d' == EnrolAt(o, fenced, i, req, commit)
             && undone == first + EnrolLog(fenced, i, commit)
    requires if replaced.None? then fenced == d && first == undo
             else undo <= first && Place(d.participants, req.participant) == Place(fenced.participants, req.participant)
                  && FenceApplied(o, d, fenced, Place(d.participants, req.participant), replaced.value, Reincarnation, [], first[|undo|..])
    ensures undo <= undone && RegistrationApplied(o, d, d', req, commit, replaced, undone[|undo|..])
  {
    hide FenceApplied, EnrolAt, EnrolLog, Place, CountersLeft;
    var i := Place(fenced.participants, req.participant);
    var log := undone[|undo|..];
    if replaced.Some? {
      assert first == undo + first[|undo|..];
      assert log == first[|undo|..] + EnrolLog(fenced, i, commit);
    } else {
      assert log == EnrolLog(d, i, commit);
    }
  }

  lemma FencedPlace(o: Options, d: DurableState, fenced: DurableState, id: ParticipantId, boot: Id, log: seq<UndoAction>)
    requires DistinctParticipants(d.participants) && Place(d.participants, id) < |d.participants|
    requires FenceApplied(o, d, fenced, Place(d.participants, id), boot, Reincarnation, [], log)
    ensures Place(fenced.participants, id) == Place(d.participants, id)
  {
    hide FenceApplied, DistinctParticipants, PositionOf, ToMap, ParticipantIndex;
    FenceAppliedRefines(o, d, fenced, Place(d.participants, id), boot, Reincarnation, [], log);
    PositionIs(fenced.participants, Place(d.participants, id));
  }

  predicate LiveUnder(s: State, id: ParticipantId, boot: Id) {
    id in s.participants && FindIncarnation(s.participants[id], boot).Some?
  }

  /** One more element of a batch; a throw on the way is a throw of the whole. */
  lemma BatchStep(o: Options, s: State, reqs: seq<RegisterRequest>, k: nat)
    requires k < |reqs| && RegisterEachThrough(o, s, s.fences, reqs[..k]).Done?
    ensures var before := RegisterEachThrough(o, s, s.fences, reqs[..k]);
            var step := RegisterThrough(o, before.state, s.fences, reqs[k], false);
            && (step.Done? ==> RegisterEachThrough(o, s, s.fences, reqs[..k + 1])
                               == Done(step.state, before.result + [step.result], before.mutated || step.mutated))
            && (step.Threw? ==> RegisterBatchThrough(o, s, reqs).Threw?)
  {
    hide RegisterThrough;
    assert reqs[..k + 1][..k] == reqs[..k];
    if RegisterThrough(o, RegisterEachThrough(o, s, s.fences, reqs[..k]).state, s.fences, reqs[k], false).Threw? {
      ThrowsOnwards(o, s, reqs, k + 1);
    }
  }

  lemma EmptyBatch(o: Options, s: State, reqs: seq<RegisterRequest>)
    ensures RegisterEachThrough(o, s, s.fences, reqs[..0]) == Done(s, [], false)
  {
  }

  lemma {:induction false} ThrowsOnwards(o: Options, s: State, reqs: seq<RegisterRequest>, k: nat)
    requires k <= |reqs| && RegisterEachThrough(o, s, s.fences, reqs[..k]).Threw?
    ensures RegisterEachThrough(o, s, s.fences, reqs).Threw?
    decreases |reqs| - k
  {
    hide RegisterThrough;
    if k == |reqs| {
      assert reqs[..k] == reqs;
    } else {
      assert reqs[..k + 1][..k] == reqs[..k];
      ThrowsOnwards(o, s, reqs, k + 1);
    }
  }

  /** The validator accepts the canonical vector of this state. */
  ghost predicate Storable(s: State) {
    exists d: DurableState :: SortedById(d.participants) && DistinctParticipants(d.participants) && Abs(d) == s && ValidDurable(d)
  }

  /** There is only one canonical vector, so a save accepts a vector exactly when its state is storable. */
  lemma StorableIff(d: DurableState)
    requires DistinctParticipants(d.participants)
    ensures ValidDurable(Canonicalized(d)) <==> Storable(Abs(d))
    ensures DistinctParticipants(Canonicalized(d).participants) && Abs(Canonicalized(d)) == Abs(d)
  {
    hide ToMap, DistinctParticipants, SortedById, Canonicalized, ValidDurable;
    CanonicalizedRefines(d);
    var c := Canonicalized(d);
    forall e: DurableState | SortedById(e.participants) && DistinctParticipants(e.participants) && Abs(e) == Abs(d)
      ensures e == c
    {
      CanonicalIsUnique(e.participants, c.participants);
    }
  }

  /** A judged batch is stored exactly when no boot is live twice, and leaves a valid state. */
  lemma JudgedBatchSettles(o: Options, d: DurableState, reqs: seq<RegisterRequest>, c: DurableState)
    requires ValidState(o, d) && BatchJudged(o, Abs(d), reqs) && SortedById(c.participants) && DistinctParticipants(c.participants)
    requires var spec := RegisterBatchThrough(o, Abs(d), reqs); spec.Done? && spec.mutated && spec.state == Abs(c)
    ensures RegisterBatchThrough(o, Abs(d), reqs) == RegisterBatch(o, Abs(d), reqs)
    ensures ValidDurable(c) <==> BootsUnique(Abs(c))
    ensures ValidDurable(c) ==> ValidState(o, c)
  {
    hide Inv, ToMap, DistinctParticipants, SortedById, ValidDurable, BootsUnique, BatchJudged, RegisterBatch, RegisterBatchThrough, ViableOptions, Forward;
    JudgedBatch(o, Abs(d), reqs);
    BatchKeeps(o, Abs(d), reqs);
    BatchStepAdvances(o, Abs(d), reqs);
    AcceptsIff(o, c);
  }

  lemma LiveIsFenced(o: Options, s: State, id: ParticipantId, boot: Id)
    requires ViableOptions(o) && Inv(o, s)
    ensures LiveUnder(s, id, boot) ==>
              var step := RecordFence(o, s, id, boot, Reincarnation, [], false); step.Done? ==> step.mutated
  {
    hide Inv, RecordFence, FindIncarnation, BootLive;
    if id in s.participants && FindIncarnation(s.participants[id], boot).Some? {
      FindsLive(s.participants[id], boot);
      FencingALiveBootWorks(o, s, id, boot, Reincarnation, [], false);
    }
  }

  lemma MutatedIsFenced(o: Options, s: State, filed: seq<FenceRecord>, id: ParticipantId, boot: Id, reason: FenceReason, note: Bytes,
                        defensive: bool)
    ensures var step := RecordFenceThrough(o, s, filed, id, boot, reason, note, defensive);
            step.Done? && step.mutated ==> step.result.outcome == FenceDone
  {
    hide LookupThrough, FindIncarnation, LiveFence, PreventiveFence;
  }

  /** The incumbent an accepted registration fences on its way in. */
  function Replaced(o: Options, s: State, req: RegisterRequest): Option<Id> {
    var verdict := Screen(o, s, req);
    if verdict.Replace? then Some(verdict.incumbent) else None
  }

  /** The incumbent a registration through an index gets as far as fencing. */
  ghost function Ousted(o: Options, s: State, filed: seq<FenceRecord>, req: RegisterRequest): Option<Id> {
    var verdict := ScreenThrough(o, s, filed, req);
    if !verdict.Replace? then None
    else
      var fence := RecordFenceThrough(o, s, filed, req.participant, verdict.incumbent, Reincarnation, [], false);
      if fence.Done? && fence.mutated then Some(verdict.incumbent) else None
  }

  lemma OustedIsReplaced(o: Options, s: State, req: RegisterRequest)
    requires ViableOptions(o) && Inv(o, s)
    ensures Register(o, s, req, true).Done? ==> Ousted(o, s, s.fences, req) == Replaced(o, s, req)
  {
    hide Inv, ScreenStructure, ScreenGiven, LookupThrough, LookupFence, RecordFenceGiven, FindIncarnation, EnrolWithinLimits;
    FreshThrough(s, req.participant, req.boot);
    var v := Screen(o, s, req);
    if v.Replace? {
      FreshThrough(s, req.participant, v.incumbent);
      ReplaceFacts(o, s, req);
      LiveIsFenced(o, s, req.participant, v.incumbent);
    }
  }

  /** Neither the fence of the incumbent nor the enrolment lists a boot twice. */
  lemma StaysUnrepeated(o: Options, d: DurableState, fenced: DurableState, req: RegisterRequest, commit: bool, replaced: Option<Id>,
                        log: seq<UndoAction>)
    requires Unrepeated(d.participants) && CountersLeft(fenced, req.participant, commit)
    requires var i := Place(d.participants, req.participant);
             && i == Place(fenced.participants, req.participant)
             && (i < |d.participants| ==> FindIncarnation(d.participants[i], req.boot).None?)
             && if replaced.None? then fenced == d else FenceApplied(o, d, fenced, i, replaced.value, Reincarnation, [], log)
    ensures Unrepeated(EnrolAt(o, fenced, Place(fenced.participants, req.participant), req, commit).participants)
  {
    hide Unrepeated, FenceAt, PreventAt, FenceLog, PreventLog, EnrolAt, Place, FindIncarnation, AmongExtras;
    var i := Place(d.participants, req.participant);
    if replaced.Some? {
      FenceAppliedUnrepeated(o, d, fenced, i, replaced.value, Reincarnation, [], log);
    }
    if i < |d.participants| {
      FindsLive(d.participants[i], req.boot);
    }
    EnrolUnrepeated(o, fenced, req, commit);
  }

  lemma MutatedReaches(o: Options, d: DurableState, d1: DurableState, req: RegisterRequest, result: RegistrationResult)
    requires ValidState(o, d) && DistinctParticipants(d1.participants)
    requires Register(o, Abs(d), req, true) == Done(Abs(d1), result, true)
    ensures Reached(o, Register(o, Abs(d), req, true), d1)
  {
    hide Inv, DistinctParticipants, SortedById, ToMap, BootsUnique, Register, Forward;
    RegisterKeeps(o, Abs(d), req, true);
    RegisteringAdvances(o, Abs(d), req, true);
  }

  /** Whether a failed save of this registration is undone without a trace. */
  predicate UndoneExactly(o: Options, d: DurableState, req: RegisterRequest, replaced: Option<Id>) {
    if Place(d.participants, req.participant) == |d.participants| then
      forall i :: 0 <= i < |d.participants| ==> BytesLess(d.participants[i].id.text, req.participant.text)
    else replaced.Some? ==> |d.fences| < o.limits.maxRecentFences
  }

  /** A registration, once on the vector: the save refuses it exactly when another participant
      holds the boot, and a failed save is undone exactly in the cases named. */
  lemma RegistrationSettles(o: Options, d: DurableState, d1: DurableState, req: RegisterRequest, result: RegistrationResult,
                            replaced: Option<Id>, log: seq<UndoAction>)
    requires ValidState(o, d) && DistinctParticipants(d1.participants)
    requires Register(o, Abs(d), req, true) == Done(Abs(d1), result, true) && result.outcome == Registered
    requires RegistrationApplied(o, d, d1, req, true, replaced, log)
    requires replaced.Some? ==>
               var i := Place(d.participants, req.participant);
               i < |d.participants| && FindIncarnation(d.participants[i], replaced.value).Some?
    ensures var spec := Register(o, Abs(d), req, true);
            && Reached(o, spec, d1)
            && (BootsUnique(spec.state) <==> !HeldElsewhere(Abs(d), req.participant, req.boot))
            && (Rollback(Canonicalized(d1), log) == d <==> UndoneExactly(o, d, req, replaced))
  {
    hide Inv, DistinctParticipants, SortedById, ToMap, BootsUnique, Register, Canonicalized, Rollback, RegistrationApplied, UndoneExactly, HeldElsewhere, Place, Forward, FindIncarnation;
    RegisterBootsIff(o, Abs(d), req, true);
    RegisteringAdvances(o, Abs(d), req, true);
    LastFenceBounded(o, d);
    RegistrationUndone(o, d, d1, req, replaced, log);
  }

  lemma RegistrationUndone(o: Options, d: DurableState, d1: DurableState, req: RegisterRequest,
                           replaced: Option<Id>, log: seq<UndoAction>)
    requires SortedById(d.participants) && o.limits.maxRecentFences > 0
    requires d.fences != [] ==> d.fences[|d.fences| - 1].generation <= d.fenceFloor
    requires RegistrationApplied(o, d, d1, req, true, replaced, log)
    requires replaced.Some? ==>
               var i := Place(d.participants, req.participant);
               i < |d.participants| && FindIncarnation(d.participants[i], replaced.value).Some?
    ensures Rollback(Canonicalized(d1), log) == d <==> UndoneExactly(o, d, req, replaced)
  {
    hide DistinctParticipants, SortedById, Canonicalized, Rollback, EnrolAt, FenceAt, EnrolLog, FenceLog, BytesLess, FindIncarnation;
    var i := Place(d.participants, req.participant);
    if replaced.Some? {
      var fenced, first :|
        && FenceApplied(o, d, fenced, i, replaced.value, Reincarnation, [], first)
        && i == Place(fenced.participants, req.participant)
        && CountersLeft(fenced, req.participant, true) && d1 == EnrolAt(o, fenced, i, req, true)
        && log == first + EnrolLog(fenced, i, true);
      FencedSequence(o, d, i, replaced.value);
      ReplacementRollback(o, d, i, replaced.value, FindIncarnation(d.participants[i], replaced.value).value, req);
    } else if i < |d.participants| {
      UpdateRollback(o, d, i, req, true);
    } else {
      CreationRollback(o, d, req, true);
    }
  }

  lemma FencedSequence(o: Options, d: DurableState, i: nat, boot: Id)
    requires i < |d.participants| && d.fenceFloor < U64_MAX && d.generation < U64_MAX
    requires FindIncarnation(d.participants[i], boot).Some?
    ensures var e := FenceAt(o, d, i, boot, FindIncarnation(d.participants[i], boot).value, Reincarnation, []);
            && |e.participants| == |d.participants| && e.participants[i].nextIncarnation == d.participants[i].nextIncarnation
            && e.registrationFloor == d.registrationFloor && e.generation == d.generation + 1
            && e.participants[i].id == d.participants[i].id
  {
    hide FencedParticipant, Remember, FindIncarnation;
    var sequence := FindIncarnation(d.participants[i], boot).value;
    FencedKeepsAllocator(o, d.participants[i], boot, sequence, d.fenceFloor + 1);
    FencedKeepsId(o, d.participants[i], boot, sequence, d.fenceFloor + 1);
  }

  // ---- grants -------------------------------------------------------------

  /** A fence request, grant or retirement that failed to save is never undone without a trace:
      the participant still remembers the attempt. */
  predicate Remembers(d: DurableState, id: ParticipantId, attempt: Id) {
    var i := PositionOf(d.participants, id);
    i.Some? && FindAttempt(d.participants[i.value].idempotency, attempt).Some?
  }

  lemma NewAttemptSurvives(o: Options, d: DurableState, d1: DurableState, i: nat, record: AttemptRecord, log: seq<UndoAction>)
    requires SortedById(d1.participants) && i < |d.participants| && |d1.participants| == |d.participants|
    requires d1.participants[i].idempotency == Remember(d.participants[i].idempotency, o.limits.maxIdempotencyRecords, record)
    requires FindAttempt(d.participants[i].idempotency, record.attempt).None?
    requires forall k :: 0 <= k < |log| ==> !PutsRecordsBack(log[k])
    ensures var after := Rollback(Canonicalized(d1), log);
            after != d && Remembers(after, d1.participants[i].id, record.attempt)
  {
    hide DistinctParticipants, SortedById, FindAttempt, Canonicalized, Rollback, PositionOf, Remember;
    RememberedAttemptSurvives(o, d, d1, i, record, log);
    var after := Rollback(Canonicalized(d1), log);
    SortedTablesDistinct(d1, after, log);
    PositionIs(after.participants, i);
  }

  lemma GrantAtRefines(o: Options, d: DurableState, i: nat, req: GrantRequest, id: Id)
    requires DistinctParticipants(d.participants) && i < |d.participants| && d.generation < U64_MAX
    requires d.participants[i].id == req.participant
    ensures var record := AttemptRecord(req.attempt, GrantKind, o.digest(Granting(req)), 0, d.generation + 1, 0, id);
            var e := GrantAt(o, d, i, NewGrant(Abs(d), req, id), record);
            && req.participant in Abs(d).participants
            && DistinctParticipants(e.participants) && Abs(e) == AddGrant(o, Abs(d), req, id)
  {
    hide ToMap, DistinctParticipants, RememberAt, RememberFor, NewGrant;
    Member(d, i);
    var record := AttemptRecord(req.attempt, GrantKind, o.digest(Granting(req)), 0, d.generation + 1, 0, id);
    RememberAtRefines(o, d.(generation := d.generation + 1, grants := d.grants + [NewGrant(Abs(d), req, id)]), i, record);
  }

  /** A grant, once on the vector. */
  lemma GrantSettles(o: Options, d: DurableState, i: nat, req: GrantRequest, id: Id, log: seq<UndoAction>)
    requires ValidState(o, d) && i < |d.participants| && d.generation < U64_MAX && FreshGrantId(Abs(d), id)
    requires req.participant in Abs(d).participants
    requires d.participants[i].id == req.participant && FindAttempt(d.participants[i].idempotency, req.attempt).None?
    requires log == GrantLog(d)
    requires var spec := GrantAuthority(o, Abs(d), req, id);
             spec.Done? && spec.mutated && spec.state == AddGrant(o, Abs(d), req, id)
    ensures var record := AttemptRecord(req.attempt, GrantKind, o.digest(Granting(req)), 0, d.generation + 1, 0, id);
            var d1 := GrantAt(o, d, i, NewGrant(Abs(d), req, id), record);
            var spec := GrantAuthority(o, Abs(d), req, id);
            && Reached(o, spec, d1) && BootsUnique(spec.state)
            && var after := Rollback(Canonicalized(d1), log);
               after != d && Remembers(after, req.participant, req.attempt)
  {
    hide Inv, DistinctParticipants, SortedById, ToMap, BootsUnique, GrantAuthority, FindAttempt, Canonicalized, Rollback, NewGrant, AddGrant, ViableOptions, Remember, Remembers, FreshGrantId;
    var record := AttemptRecord(req.attempt, GrantKind, o.digest(Granting(req)), 0, d.generation + 1, 0, id);
    var d1 := GrantAt(o, d, i, NewGrant(Abs(d), req, id), record);
    Member(d, i);
    GrantAtRefines(o, d, i, req, id);
    OtherStepsKeepBootsUnique(o, Abs(d), DoGrant(req, id));
    InPlaceStaysSorted(d.participants, i, d1.participants[i]);
    NewAttemptSurvives(o, d, d1, i, record, log);
  }

  // ---- revocations --------------------------------------------------------

  /** Nothing delegated from the target had been revoked before. */
  predicate WhollyLive(grants: seq<Grant>, t: nat) {
    forall i :: 0 <= i < |grants| && Descends(grants, i, t) ==> !grants[i].revoked
  }

  /** A revocation, once on the vector: exactly undone when nothing below the target was revoked
      before and the control table had room. */
  lemma RevokeSettles(o: Options, d: DurableState, t: nat, req: RevokeRequest, derived: nat, record: AttemptRecord)
    requires ValidState(o, d) && d.generation < U64_MAX && IndexOf(d.grants, req.grant) == Some(t) && !d.grants[t].revoked
    requires req.attempt != NIL && req.grant != NIL && req.expectedEpoch == d.epoch
    requires FindAttempt(d.control, req.attempt).None? && derived == |NewlyRevoked(d.grants, t)| - 1
    requires record == AttemptRecord(req.attempt, RevokeKind, o.digest(Revoking(req)), 0, d.generation + 1, derived % (U64_MAX + 1), NIL)
    ensures var d1 := RevokeAt(o, d, t, record);
            var spec := RevokeAuthority(o, Abs(d), req);
            && Reached(o, spec, d1) && BootsUnique(spec.state)
            && spec.result == RevokeResult(RevokeDone, d.epoch, Some(d.generation + 1), derived)
            && (Rollback(Canonicalized(d1), RevokeLog(d, t)) == d
                <==> |d.control| < o.limits.maxIdempotencyRecords && WhollyLive(d.grants, t))
  {
    hide Inv, DistinctParticipants, SortedById, ToMap, BootsUnique, FindAttempt, Canonicalized, Rollback, ViableOptions, Remember, RevokeSubtree, NewlyRevoked, IndexOf, RevokeTree, UniqueIds, Unmarked, RevokeLog, Descends;
    RevokeAtRefines(o, d, t, req, derived);
    OtherStepsKeepBootsUnique(o, Abs(d), DoRevoke(req));
    GrantsUnmarked(o, d);
    RevokeRollback(o, d, t, record);
  }

  lemma GrantsUnmarked(o: Options, d: DurableState)
    requires DistinctParticipants(d.participants) && ViableOptions(o) && Inv(o, Abs(d))
    ensures UniqueIds(d.grants) && Unmarked(d.grants) && IsForest(d.grants) && o.limits.maxIdempotencyRecords > 0
  {
    hide ParticipantsOk, FencesOk, TransitionsOk, ControlOk, SumsOk, Rooted;
    assert forall i :: 0 <= i < |d.grants| ==> GrantOk(d.grants[i], d.epoch);
  }

  // ---- epochs -------------------------------------------------------------

  /** An epoch advance, once on the vector. A failed save puts everything back but the control
      table, which still remembers the attempt. */
  lemma AdvanceSettles(o: Options, d: DurableState, req: AdvanceRequest, transition: Id, record: AttemptRecord)
    requires ValidState(o, d) && d.generation < U64_MAX && d.epoch < U64_MAX && FreshTransitionId(Abs(d), transition)
    requires req.attempt != NIL && req.expectedEpoch == d.epoch && FindAttempt(d.control, req.attempt).None?
    requires record == AttemptRecord(req.attempt, AdvanceKind, o.digest(Advancing(req)), 0, d.epoch + 1, 1, NIL)
    ensures var d1 := AdvanceAt(o, d, d.coordinatorBoot, req.cause, true, transition);
            var d2 := d1.(control := Remember(d1.control, o.limits.maxIdempotencyRecords, record));
            var spec := AdvanceEpoch(o, Abs(d), req, transition);
            && Reached(o, spec, d2) && BootsUnique(spec.state)
            && spec.result == AdvanceResult(Advanced, d.epoch + 1, d.coordinatorBoot, Some(transition), false)
            && var after := Rollback(Canonicalized(d2), EpochLog(d));
               after != d && after.epoch == d.epoch && after.participants == d.participants
               && FindAttempt(after.control, req.attempt) == Some(record)
  {
    hide Inv, DistinctParticipants, SortedById, ToMap, BootsUnique, FindAttempt, Canonicalized, Rollback, ViableOptions, InvalidateAll, FreshTransitionId, Remember;
    AdvanceAtRefines(o, d, d.coordinatorBoot, req.cause, true, transition);
    AdvanceKeeps(o, Abs(d), req, transition);
    OtherStepsKeepBootsUnique(o, Abs(d), DoAdvance(req, transition));
    AdvanceRollbackNeverExact(o, d, req.cause, transition, record);
    LastIsRemembered(d.transitions, o.limits.maxTransitionHistory,
                     Transition(transition, d.epoch, d.epoch + 1, req.cause, d.coordinatorBoot, d.generation + 1, o.provenance));
  }

  lemma LastIsRemembered<T>(table: seq<T>, bound: nat, record: T)
    ensures var r := Remember(table, bound, record); r != [] && r[|r| - 1] == record
  {
  }

  // ---- retirements --------------------------------------------------------

  lemma NoFencesYet(o: Options, s: State, id: ParticipantId, boots: seq<Id>, note: Bytes)
    ensures FenceEachThrough(o, s, s.fences, id, boots[..0], note) == Done(s, 0, false)
  {
  }

  /** One more boot fenced; a throw on the way is a throw of the whole. */
  lemma FenceEachStep(o: Options, s: State, id: ParticipantId, boots: seq<Id>, k: nat, note: Bytes)
    requires k < |boots| && FenceEachThrough(o, s, s.fences, id, boots[..k], note).Done?
    ensures var before := FenceEachThrough(o, s, s.fences, id, boots[..k], note);
            var step := RecordFenceThrough(o, before.state, s.fences, id, boots[k], AdministrativeRevoke, note, false);
            && (step.Done? ==> FenceEachThrough(o, s, s.fences, id, boots[..k + 1], note)
                               == Done(step.state,
                                       if step.result.outcome == FenceDone || step.result.outcome == AlreadyFenced
                                       then before.result + 1 else before.result,
                                       before.mutated || step.mutated))
            && (step.Threw? ==> FenceEachThrough(o, s, s.fences, id, boots, note).Threw?)
  {
    hide RecordFenceThrough;
    assert boots[..k + 1][..k] == boots[..k];
    if RecordFenceThrough(o, FenceEachThrough(o, s, s.fences, id, boots[..k], note).state, s.fences, id, boots[k],
                          AdministrativeRevoke, note, false).Threw? {
      FencingThrowsOnwards(o, s, id, boots, k + 1, note);
    }
  }

  lemma {:induction false} FencingThrowsOnwards(o: Options, s: State, id: ParticipantId, boots: seq<Id>, k: nat, note: Bytes)
    requires k <= |boots| && FenceEachThrough(o, s, s.fences, id, boots[..k], note).Threw?
    ensures FenceEachThrough(o, s, s.fences, id, boots, note).Threw?
    decreases |boots| - k
  {
    hide RecordFenceThrough;
    if k == |boots| {
      assert boots[..k] == boots;
    } else {
      assert boots[..k + 1][..k] == boots[..k];
      FencingThrowsOnwards(o, s, id, boots, k + 1, note);
    }
  }

  /** Closes the allocator of the participant at position `i`. */
  function RetireAt(o: Options, d: DurableState, i: nat, record: AttemptRecord): DurableState
    requires i < |d.participants| && d.generation < U64_MAX
  {
    d.(generation := d.generation + 1, participants := d.participants[i := RetiredParticipantRecord(o, d.participants[i], record)])
  }

  lemma RetireAtRefines(o: Options, d: DurableState, i: nat, record: AttemptRecord)
    requires DistinctParticipants(d.participants) && i < |d.participants| && d.generation < U64_MAX
    ensures var e := RetireAt(o, d, i, record);
            var id := d.participants[i].id;
            && id in Abs(d).participants && DistinctParticipants(e.participants)
            && Abs(e) == CloseAllocator(o, Abs(d), id, record)
  {
    hide ToMap, DistinctParticipants, Remember;
    Member(d, i);
    InPlaceRefines(d, i, RetiredParticipantRecord(o, d.participants[i], record));
  }

  lemma FenceAppliedTables(o: Options, d: DurableState, d': DurableState, i: nat, boot: Id, reason: FenceReason, note: Bytes,
                           log: seq<UndoAction>)
    requires FenceApplied(o, d, d', i, boot, reason, note, log)
    ensures SameTables(d.participants, d'.participants) && forall k :: 0 <= k < |log| ==> !PutsRecordsBack(log[k])
  {
    hide FencedParticipant, Remember, FindIncarnation;
    var sequence := FindIncarnation(d.participants[i], boot);
    if sequence.Some? {
      FencedKeepsId(o, d.participants[i], boot, sequence.value, d.fenceFloor + 1);
      FencedKeepsTable(o, d.participants[i], boot, sequence.value, d.fenceFloor + 1);
    }
  }

  lemma SameTablesSorted(ps: seq<Participant>, qs: seq<Participant>)
    requires SortedById(ps) && SameTables(ps, qs)
    ensures SortedById(qs)
  {
    hide BytesLess;
    forall i, j | 0 <= i < j < |qs|
      ensures IdLess(qs[i], qs[j])
    {
      assert IdLess(ps[i], ps[j]);
    }
  }

  /** The undo of a retirement finds the attempt table as the retirement left it. */
  lemma RetirementUndone(o: Options, d: DurableState, now: DurableState, i: nat, record: AttemptRecord, log: seq<UndoAction>)
    requires SortedById(d.participants) && SameTables(d.participants, now.participants) && i < |d.participants|
    requires now.generation < U64_MAX && FindAttempt(d.participants[i].idempotency, record.attempt).None?
    requires forall k :: 0 <= k < |log| ==> !PutsRecordsBack(log[k])
    ensures var after := Rollback(Canonicalized(RetireAt(o, now, i, record)), log);
            after != d && Remembers(after, d.participants[i].id, record.attempt)
  {
    hide Remember, Remembers, FindAttempt, Canonicalized, Rollback, SortedById;
    var d1 := RetireAt(o, now, i, record);
    SameTablesSorted(d.participants, now.participants);
    InPlaceStaysSorted(now.participants, i, d1.participants[i]);
    NewAttemptSurvives(o, d, d1, i, record, log);
  }

  /** The retirement misreads a live boot on the way. */
  predicate Misled(o: Options, s: State, req: RetireRequest) {
    Retires(s, req) && RetireMisjudged(o, s, req.participant)
  }

  ghost predicate RetirementSettled(o: Options, d: DurableState, d1: DurableState, req: RetireRequest, count: nat)
    requires DistinctParticipants(d.participants)
  {
    && DistinctParticipants(d1.participants) && DistinctParticipants(Canonicalized(d1).participants)
    && Abs(Canonicalized(d1)) == Abs(d1) && RetireThrough(o, Abs(d), req) == Done(Abs(Canonicalized(d1)), RetireResult(RetireDone, d.epoch, count), true)
    && (ValidDurable(Canonicalized(d1)) <==> !Misled(o, Abs(d), req))
    && (!Misled(o, Abs(d), req) ==> ValidState(o, Canonicalized(d1)))
  }

  /** A retirement, once on the vector: it is what the runtime's retirement should leave, and the save
      accepts it exactly when no live boot was misread. */
  lemma RetireSettles(o: Options, d: DurableState, now: DurableState, i: nat, req: RetireRequest, count: nat, mutated: bool,
                      record: AttemptRecord, d1: DurableState)
    requires AllFenced(o, d, now, i, req, count, mutated) && ClosedWith(o, now, i, req, count, record, d1)
    requires ValidState(o, d)
    ensures DistinctParticipants(d.participants) && RetirementSettled(o, d, d1, req, count)
  {
    hide Inv, DistinctParticipants, SortedById, ToMap, BootsUnique, ViableOptions, Remember, FenceEachThrough, LiveBoots, Retire, RetireMisjudged, Retires, RetireThrough, RetireAt, ValidDurable, ValidState, Canonicalized, Reached;
    ValidStateFacts(o, d);
    RetiresThrough(o, d, now, i, req, count, mutated, record);
    RetireAtRefines(o, now, i, record);
    var spec := RetireThrough(o, Abs(d), req);
    CanonicalizedRefines(d1);
    if Misled(o, Abs(d), req) {
      MisjudgedRetirement(o, Abs(d), req);
      RetiredAliveRefused(Canonicalized(d1), req.participant);
    } else {
      JudgedRetirement(o, Abs(d), req);
      RetirementReaches(o, d, d1, req);
      ReachedSaves(o, spec, d1);
    }
  }

  /** The retirement passed its gates, and every live boot of the participant has been presented for
      fencing. */
  ghost predicate AllFenced(o: Options, d: DurableState, now: DurableState, i: nat, req: RetireRequest, count: nat, mutated: bool) {
    && DistinctParticipants(d.participants) && DistinctParticipants(now.participants) && Retires(Abs(d), req)
    && i < |d.participants| && d.participants[i].id == req.participant
    && i < |now.participants| && now.participants[i].id == req.participant
    && FenceEachThrough(o, Abs(d), d.fences, req.participant, LiveBoots(d.participants[i]), req.note) == Done(Abs(now), count, mutated)
  }

  /** The allocator was closed under the record of the attempt. */
  predicate ClosedWith(o: Options, now: DurableState, i: nat, req: RetireRequest, count: nat, record: AttemptRecord, d1: DurableState) {
    && i < |now.participants| && now.generation < U64_MAX && d1 == RetireAt(o, now, i, record)
    && record == AttemptRecord(req.attempt, RetireKind, o.digest(Retiring(req)), 0, count % (U64_MAX + 1), 0, NIL)
  }

  lemma RetiresThrough(o: Options, d: DurableState, now: DurableState, i: nat, req: RetireRequest, count: nat, mutated: bool,
                       record: AttemptRecord)
    requires AllFenced(o, d, now, i, req, count, mutated) && now.generation < U64_MAX
    requires record == AttemptRecord(req.attempt, RetireKind, o.digest(Retiring(req)), 0, count % (U64_MAX + 1), 0, NIL)
    ensures DistinctParticipants(d.participants)
    ensures DistinctParticipants(RetireAt(o, now, i, record).participants)
    ensures RetireThrough(o, Abs(d), req) == Done(Abs(RetireAt(o, now, i, record)), RetireResult(RetireDone, d.epoch, count), true)
  {
    hide DistinctParticipants, ToMap, FindAttempt, Remember, FenceEachThrough, LiveBoots, CloseAllocator, RetireAt;
    Member(d, i);
    RetireAtRefines(o, now, i, record);
  }

  lemma RetirementReaches(o: Options, d: DurableState, d1: DurableState, req: RetireRequest)
    requires ValidState(o, d) && DistinctParticipants(d1.participants)
    requires Retire(o, Abs(d), req).Done? && Retire(o, Abs(d), req).state == Abs(d1) && Retire(o, Abs(d), req).mutated
    ensures Reached(o, Retire(o, Abs(d), req), d1) && BootsUnique(Abs(d1))
  {
    hide Inv, DistinctParticipants, SortedById, ToMap, BootsUnique, ViableOptions, Retire, Forward;
    RetireKeeps(o, Abs(d), req);
    RetiringAdvances(o, Abs(d), req);
    OtherStepsKeepBootsUnique(o, Abs(d), DoRetire(req));
  }

  /** A retirement that cannot fence its boots, or close its allocator, throws. */
  lemma RetireThrows(o: Options, s: State, req: RetireRequest)
    requires Retires(s, req)
    requires var each := FenceEachThrough(o, s, s.fences, req.participant, LiveBootsOf(s, req.participant), req.note);
             each.Threw? || each.state.generation == U64_MAX
    ensures RetireThrough(o, s, req).Threw?
  {
    hide FindAttempt, FenceEachThrough, LiveBoots;
  }

  // ---- opening ------------------------------------------------------------

  /** What an empty store holds. */
  const BLANK: DurableState := DurableState(0, NIL, 0, 0, 0, [], [], [], [], [])

  lemma BlankIsPristine()
    ensures DistinctParticipants(BLANK.participants) && Abs(BLANK) == PRISTINE
  {
    assert ToMap([]) == map[];
  }

  /** A state a coordinator can open: an empty store, or what an earlier one saved. */
  ghost predicate Openable(o: Options, d: DurableState) {
    ViableOptions(o) && (d == BLANK || ValidState(o, d))
  }

  /** The epoch change of an open, once on the vector: its undo is exact while the transition
      history has room. */
  lemma OpenSettles(o: Options, d: DurableState, boot: Id, transition: Id)
    requires Openable(o, d) && d.epoch < U64_MAX && d.generation < U64_MAX
    ensures DistinctParticipants(d.participants)
    ensures FreshTransitionId(Abs(d), transition) ==>
            var d1 := AdvanceAt(o, d, boot, if d.epoch != 0 then CoordinatorRestart else CoordinatorStart, d.epoch != 0, transition);
            var spec := Reopen(o, Abs(d), boot, transition);
            && Reached(o, spec, d1) && BootsUnique(spec.state) && spec.state.epoch == d.epoch + 1
            && (Rollback(Canonicalized(d1), EpochLog(d)) == d <==> |d.transitions| < o.limits.maxTransitionHistory)
  {
    hide Inv, DistinctParticipants, ToMap, BootsUnique, Canonicalized, Rollback, InvalidateAll, Remember, SortedById;
    BlankIsPristine();
    if FreshTransitionId(Abs(d), transition) {
      var cause := if d.epoch != 0 then CoordinatorRestart else CoordinatorStart;
      PristineIsOk(o);
      AdvanceAtRefines(o, d, boot, cause, d.epoch != 0, transition);
      ReopenKeeps(o, Abs(d), boot, transition);
      NothingLiveIsUnique(o, d, boot, transition);
      EpochRollback(o, d, boot, cause, d.epoch != 0, transition);
    }
  }

  lemma NothingLiveIsUnique(o: Options, d: DurableState, boot: Id, transition: Id)
    requires Openable(o, d) && d.epoch < U64_MAX && d.generation < U64_MAX && DistinctParticipants(d.participants)
    requires FreshTransitionId(Abs(d), transition)
    ensures BootsUnique(Reopen(o, Abs(d), boot, transition).state)
  {
    hide Inv, DistinctParticipants, ToMap, BootsUnique, FreshTransitionId, MutateEpoch;
    if d.epoch != 0 {
      OtherStepsKeepBootsUnique(o, Abs(d), DoReopen(boot, transition));
    } else {
      NoneUnique(o, boot, transition);
      BlankIsPristine();
    }
  }

  lemma NoneUnique(o: Options, boot: Id, transition: Id)
    ensures BootsUnique(Reopen(o, PRISTINE, boot, transition).state)
  {
  }

  lemma EpochRollback(o: Options, d: DurableState, boot: Id, cause: TransitionCause, invalidate: bool, transition: Id)
    requires d.epoch < U64_MAX && d.generation < U64_MAX && o.limits.maxTransitionHistory > 0
    requires forall i :: 0 <= i < |d.transitions| ==> d.transitions[i].id != transition
    ensures Rollback(Canonicalized(AdvanceAt(o, d, boot, cause, invalidate, transition)), EpochLog(d)) == d
            <==> |d.transitions| < o.limits.maxTransitionHistory
  {
    hide Sort, InvalidateEach, Remember, Resize;
    var c := Canonicalized(AdvanceAt(o, d, boot, cause, invalidate, transition));
    var a := EpochLog(d)[0];
    assert EpochLog(d)[..0] == [];
    assert Rollback(c, EpochLog(d)) == Rollback(UndoOne(c, a), []) == UndoOne(c, a);
    var record := Transition(transition, d.epoch, d.epoch + 1, cause, boot, d.generation + 1, o.provenance);
    HistoryRestoredIff(d.transitions, o.limits.maxTransitionHistory, record);
  }
}
