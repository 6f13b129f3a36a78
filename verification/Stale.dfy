/** Operations that look fences up through an index filed before they began. The index is refreshed
    only by a save, so within one operation it can lag behind the fence history: this says what
    the operations then do, and exactly when that is what they should do. */
module Stale {
  import opened Basics
  import opened Model
  import opened Authority
  import opened Invariant
  import opened Preservation
  import opened Batch
  import opened Indexes

  // ---- the lookup --------------------------------------------------------

  /** Looks (id, boot) up in the current history through an index filed over `filed`. */
  function LookupThrough(s: State, filed: seq<FenceRecord>, id: ParticipantId, boot: Id): FenceLookup {
    var record := FirstListed(s.fences, Listed(FenceIndex(filed), boot), id);
    if record.Some? then FenceLookup(true, record)
    else FenceLookup(id in s.participants && boot in s.participants[id].fencedBoots, None)
  }

  /** A position filed under the boot now holds some record of the participant. */
  predicate Points(filed: seq<FenceRecord>, now: seq<FenceRecord>, id: ParticipantId, boot: Id) {
    exists p :: 0 <= p < |filed| && filed[p].boot == boot && p < |now| && now[p].participant == id
  }

  predicate InRing(s: State, id: ParticipantId, boot: Id) {
    id in s.participants && boot in s.participants[id].fencedBoots
  }

  lemma {:induction false} FirstListedIff(fences: seq<FenceRecord>, positions: seq<nat>, id: ParticipantId)
    ensures FirstListed(fences, positions, id).Some? <==>
              exists k :: 0 <= k < |positions| && positions[k] < |fences| && fences[positions[k]].participant == id
  {
    if positions != [] {
      FirstListedIff(fences, positions[1..], id);
      assert forall k :: 1 <= k < |positions| ==> positions[k] == positions[1..][k - 1];
    }
  }

  /** What the lookup through the index answers, and what a scan answers. */
  lemma ThroughIff(s: State, filed: seq<FenceRecord>, id: ParticipantId, boot: Id)
    ensures LookupThrough(s, filed, id, boot).fenced <==> Points(filed, s.fences, id, boot) || InRing(s, id, boot)
    ensures LookupFence(s, id, boot).fenced <==> Recorded(s.fences, id, boot) || InRing(s, id, boot)
  {
    hide FenceIndex, FirstListed;
    var positions := Listed(FenceIndex(filed), boot);
    FenceIndexLists(filed, boot);
    FirstListedIff(s.fences, positions, id);
    if Points(filed, s.fences, id, boot) {
      var p :| 0 <= p < |filed| && filed[p].boot == boot && p < |s.fences| && s.fences[p].participant == id;
      assert p in positions;
    }
  }

  /** The index misjudges a boot exactly when pointing and being recorded disagree, and the ring
      does not settle it. */
  predicate Misreads(s: State, filed: seq<FenceRecord>, id: ParticipantId, boot: Id) {
    !InRing(s, id, boot) && (Points(filed, s.fences, id, boot) != Recorded(s.fences, id, boot))
  }

  lemma MisreadsIff(s: State, filed: seq<FenceRecord>, id: ParticipantId, boot: Id)
    ensures Misreads(s, filed, id, boot) <==> LookupThrough(s, filed, id, boot).fenced != LookupFence(s, id, boot).fenced
  {
    hide LookupThrough, LookupFence, Points, Recorded, InRing;
    ThroughIff(s, filed, id, boot);
  }

  /** While nothing is evicted, what is missed is exactly a boot fenced since the index was filed
      that its owner's ring has already dropped. */
  lemma MissedIff(s: State, filed: seq<FenceRecord>, id: ParticipantId, boot: Id)
    requires filed <= s.fences
    ensures Misreads(s, filed, id, boot) <==>
            !InRing(s, id, boot) && !Recorded(filed, id, boot) && Recorded(s.fences[|filed|..], id, boot)
  {
    var later := s.fences[|filed|..];
    assert forall i :: 0 <= i < |filed| ==> s.fences[i] == filed[i];
    assert forall i :: 0 <= i < |later| ==> s.fences[|filed| + i] == later[i];
    assert forall i :: |filed| <= i < |s.fences| ==> later[i - |filed|] == s.fences[i];
  }

  /** For a live boot, the index misreads exactly when it points at a record of the owner. */
  lemma LiveMisreadIff(o: Options, s: State, filed: seq<FenceRecord>, id: ParticipantId, boot: Id)
    requires Inv(o, s) && id in s.participants && BootLive(s.participants[id], boot)
    ensures Misreads(s, filed, id, boot) <==> Points(filed, s.fences, id, boot)
    ensures LookupThrough(s, filed, id, boot).fenced <==> Points(filed, s.fences, id, boot)
  {
    hide Inv, LookupFence, LookupThrough, Points, BootLive;
    LiveIsNotFenced(o, s, id, boot);
    ThroughIff(s, filed, id, boot);
  }

  lemma FreshIndexNeverMisreads(s: State, id: ParticipantId, boot: Id)
    ensures !Misreads(s, s.fences, id, boot)
  {
  }

  // ---- fences and registrations ------------------------------------------

  ghost function RecordFenceThrough(o: Options, s: State, filed: seq<FenceRecord>, id: ParticipantId, boot: Id,
                                    reason: FenceReason, note: Bytes, defensive: bool): Step<FenceResult>
  {
    RecordFenceGiven(o, s, LookupThrough(s, filed, id, boot), id, boot, reason, note, defensive)
  }

  function ScreenThrough(o: Options, s: State, filed: seq<FenceRecord>, req: RegisterRequest): Verdict {
    var structure := ScreenStructure(o, s, req);
    if structure.Refuse? then structure
    else if req.participant in s.participants then
      ScreenGiven(o, s, LookupThrough(s, filed, req.participant, req.boot).fenced, req, s.participants[req.participant])
    else if |s.participants| >= o.limits.maxParticipants then Refuse(Refusal(s, RegisterLimit))
    else Admit
  }

  ghost function RegisterThrough(o: Options, s: State, filed: seq<FenceRecord>, req: RegisterRequest, commit: bool): Step<RegistrationResult> {
    match ScreenThrough(o, s, filed, req)
    case Refuse(result) => Done(s, result, false)
    case Admit => EnrolWithinLimits(o, s, req, commit, false)
    case Replace(incumbent) =>
      match RecordFenceThrough(o, s, filed, req.participant, incumbent, Reincarnation, [], false)
      case Threw => Threw
      case Done(s1, fence, mutated) =>
        if fence.outcome != FenceDone && fence.outcome != AlreadyFenced
        then Done(s1, Refusal(s1, ConflictingIncarnation), mutated)
        else EnrolWithinLimits(o, s1, req, commit, mutated)
  }

  /** The request passes the structural gates and names a participant that has not retired. */
  predicate Consults(o: Options, s: State, req: RegisterRequest) {
    ScreenStructure(o, s, req).Admit? && req.participant in s.participants && !s.participants[req.participant].retired
  }

  /** The registration asks the index a question it answers wrongly: about the boot to register, or
      about the incumbent it would replace. */
  predicate Misjudged(o: Options, s: State, filed: seq<FenceRecord>, req: RegisterRequest) {
    && Consults(o, s, req)
    && (|| Misreads(s, filed, req.participant, req.boot)
        || (Screen(o, s, req).Replace? && Misreads(s, filed, req.participant, Screen(o, s, req).incumbent)))
  }

  lemma JudgedScreens(o: Options, s: State, filed: seq<FenceRecord>, req: RegisterRequest)
    requires !(Consults(o, s, req) && Misreads(s, filed, req.participant, req.boot))
    ensures ScreenThrough(o, s, filed, req) == Screen(o, s, req)
  {
    hide ScreenStructure, LookupThrough, LookupFence, Misreads, FindAttempt, FindIncarnation;
    MisreadsIff(s, filed, req.participant, req.boot);
    if !ScreenStructure(o, s, req).Admit? {
      StructureRefuses(o, s, req);
    }
  }

  lemma StructureRefuses(o: Options, s: State, req: RegisterRequest)
    ensures ScreenStructure(o, s, req).Admit? || ScreenStructure(o, s, req).Refuse?
  {
  }

  lemma JudgedFence(o: Options, s: State, filed: seq<FenceRecord>, id: ParticipantId, boot: Id, reason: FenceReason, note: Bytes)
    requires !Misreads(s, filed, id, boot)
    ensures var through, direct := RecordFenceThrough(o, s, filed, id, boot, reason, note, false), RecordFence(o, s, id, boot, reason, note, false);
            && (through.Threw? <==> direct.Threw?)
            && (direct.Done? ==> through.state == direct.state && through.mutated == direct.mutated
                                 && through.result.outcome == direct.result.outcome)
  {
    hide LookupThrough, LookupFence, Misreads, FindIncarnation, LiveFence, PreventiveFence;
    MisreadsIff(s, filed, id, boot);
  }

  /** A fence the index misreads: recorded on one side only, so the floors differ. */
  lemma MisreadFence(o: Options, s: State, filed: seq<FenceRecord>, id: ParticipantId, boot: Id, reason: FenceReason, note: Bytes)
    requires Misreads(s, filed, id, boot) && id in s.participants && FindIncarnation(s.participants[id], boot).Some?
    ensures var through, direct := RecordFenceThrough(o, s, filed, id, boot, reason, note, false), RecordFence(o, s, id, boot, reason, note, false);
            && (through.Done? && direct.Done? ==> through.state.fenceFloor != direct.state.fenceFloor)
            && (through.Done? ==> through.result.outcome == FenceDone || through.result.outcome == AlreadyFenced)
            && (direct.Done? ==> direct.result.outcome == FenceDone || direct.result.outcome == AlreadyFenced)
  {
    hide LookupThrough, LookupFence, Misreads, FindIncarnation, FencedParticipant, Remember;
    MisreadsIff(s, filed, id, boot);
  }

  /** The steps answer differently or lead to different states. */
  predicate Apart<R(==)>(a: Step<R>, b: Step<R>) {
    a.Threw? != b.Threw? || (a.Done? && b.Done? && (a.state != b.state || a.result != b.result))
  }

  /** Exactly when a registration through the index is the registration it should be. */
  lemma RegisterThroughIff(o: Options, s: State, filed: seq<FenceRecord>, req: RegisterRequest, commit: bool)
    requires Register(o, s, req, commit).Done?
    ensures RegisterThrough(o, s, filed, req, commit) == Register(o, s, req, commit) <==> !Misjudged(o, s, filed, req)
    ensures Misjudged(o, s, filed, req) ==> Apart(RegisterThrough(o, s, filed, req, commit), Register(o, s, req, commit))
  {
    hide ScreenThrough, Screen, RecordFence, RecordFenceThrough, EnrolWithinLimits, Misreads, Consults;
    if Consults(o, s, req) && Misreads(s, filed, req.participant, req.boot) {
      MisreadBootDiffers(o, s, filed, req, commit);
    } else {
      JudgedScreens(o, s, filed, req);
      var v := Screen(o, s, req);
      if v.Replace? {
        ReplaceFacts(o, s, req);
        if Misreads(s, filed, req.participant, v.incumbent) {
          MisreadFence(o, s, filed, req.participant, v.incumbent, Reincarnation, []);
          FloorsKept(o, RecordFence(o, s, req.participant, v.incumbent, Reincarnation, [], false),
                     RecordFenceThrough(o, s, filed, req.participant, v.incumbent, Reincarnation, [], false), req, commit);
        } else {
          JudgedFence(o, s, filed, req.participant, v.incumbent, Reincarnation, []);
        }
      }
    }
  }

  /** Enrolment leaves the fence floor alone. */
  lemma FloorsKept(o: Options, a: Step<FenceResult>, b: Step<FenceResult>, req: RegisterRequest, commit: bool)
    ensures a.Done? ==> var e := EnrolWithinLimits(o, a.state, req, commit, a.mutated); e.Done? ==> e.state.fenceFloor == a.state.fenceFloor
    ensures b.Done? ==> var e := EnrolWithinLimits(o, b.state, req, commit, b.mutated); e.Done? ==> e.state.fenceFloor == b.state.fenceFloor
  {
    hide Enrolled, ParticipantOrFresh, Workers;
  }

  lemma ReplaceFacts(o: Options, s: State, req: RegisterRequest)
    ensures Screen(o, s, req).Replace? ==>
              Consults(o, s, req) && req.participant in s.participants
              && FindIncarnation(s.participants[req.participant], Screen(o, s, req).incumbent).Some?
  {
    hide LookupFence, FindAttempt;
  }

  /** The refusal for a fenced boot is like no other answer. */
  lemma MisreadBootDiffers(o: Options, s: State, filed: seq<FenceRecord>, req: RegisterRequest, commit: bool)
    requires Consults(o, s, req) && Misreads(s, filed, req.participant, req.boot)
    requires Register(o, s, req, commit).Done?
    ensures Apart(RegisterThrough(o, s, filed, req, commit), Register(o, s, req, commit))
  {
    hide ScreenStructure, LookupThrough, LookupFence, Misreads, FindAttempt, FindIncarnation, RecordFenceThrough, RecordFence, EnrolWithinLimits;
    MisreadsIff(s, filed, req.participant, req.boot);
    var p := s.participants[req.participant];
    OnlyFencedRefusal(o, s, req, p);
    var refused := Refusal(s, RegisterStaleBoot);
    var fence := RecordFence(o, s, req.participant, FirstOf(p), Reincarnation, [], false);
    var through := RecordFenceThrough(o, s, filed, req.participant, FirstOf(p), Reincarnation, [], false);
    NeverStaleBoot(o, s, req, commit, false);
    if fence.Done? {
      NeverStaleBoot(o, fence.state, req, commit, fence.mutated);
    }
    if through.Done? {
      NeverStaleBoot(o, through.state, req, commit, through.mutated);
    }
  }

  function FirstOf(p: Participant): Id {
    if FirstLiveBoot(p).Some? then FirstLiveBoot(p).value else NIL
  }

  lemma OnlyFencedRefusal(o: Options, s: State, req: RegisterRequest, p: Participant)
    requires !p.retired
    ensures ScreenGiven(o, s, true, req, p) == Refuse(Refusal(s, RegisterStaleBoot))
    ensures var v := ScreenGiven(o, s, false, req, p);
            && v != Refuse(Refusal(s, RegisterStaleBoot))
            && (v.Replace? ==> v.incumbent == FirstOf(p))
  {
    hide FindAttempt, FindIncarnation;
  }

  lemma NeverStaleBoot(o: Options, s: State, req: RegisterRequest, commit: bool, mutated: bool)
    ensures var e := EnrolWithinLimits(o, s, req, commit, mutated); e.Done? ==> e.result.outcome != RegisterStaleBoot
  {
    hide Enrolled, ParticipantOrFresh, Workers;
  }

  /** Through an index filed over the present history, everything is as it should be. */
  lemma FreshThrough(s: State, id: ParticipantId, boot: Id)
    ensures LookupThrough(s, s.fences, id, boot) == LookupFence(s, id, boot)
  {
    hide FenceIndex, FirstListed, FindRecord;
    IndexedLookupAgrees(s.fences, id, boot);
  }

  lemma FreshRegister(o: Options, s: State, req: RegisterRequest, commit: bool)
    ensures RegisterThrough(o, s, s.fences, req, commit) == Register(o, s, req, commit)
  {
    hide ScreenStructure, ScreenGiven, LookupThrough, LookupFence, RecordFenceGiven, EnrolWithinLimits;
    FreshThrough(s, req.participant, req.boot);
    var v := Screen(o, s, req);
    if v.Replace? {
      FreshThrough(s, req.participant, v.incumbent);
    }
  }

  // ---- batches -----------------------------------------------------------

  /** The elements of a batch, all through the index filed before it began. */
  ghost function RegisterEachThrough(o: Options, s: State, filed: seq<FenceRecord>, reqs: seq<RegisterRequest>): Step<seq<RegistrationResult>> {
    if reqs == [] then Done(s, [], false)
    else
      match RegisterEachThrough(o, s, filed, reqs[..|reqs| - 1])
      case Threw => Threw
      case Done(s1, results, mutated) =>
        match RegisterThrough(o, s1, filed, reqs[|reqs| - 1], false)
        case Threw => Threw
        case Done(s2, result, more) => Done(s2, results + [result], mutated || more)
  }

  /** The batch as the runtime performs it. */
  ghost function RegisterBatchThrough(o: Options, s: State, reqs: seq<RegisterRequest>): Step<seq<RegistrationResult>> {
    match RegisterEachThrough(o, s, s.fences, reqs)
    case Threw => Threw
    case Done(s1, results, mutated) =>
      if !mutated then Done(s1, results, false)
      else if s1.generation == U64_MAX then Threw
      else Done(s1.(generation := s1.generation + 1), results, true)
  }

  /** Element k, reached through its predecessors, is misjudged. */
  ghost predicate ElementMisjudged(o: Options, s: State, reqs: seq<RegisterRequest>, k: nat)
    requires k < |reqs|
  {
    var before := RegisterEach(o, s, reqs[..k], false);
    before.Done? && Misjudged(o, before.state, s.fences, reqs[k])
  }

  /** No element of the batch is misjudged. */
  ghost predicate BatchJudged(o: Options, s: State, reqs: seq<RegisterRequest>) {
    forall k :: 0 <= k < |reqs| ==> !ElementMisjudged(o, s, reqs, k)
  }

  /** Batches, exactly: every prefix of a batch is performed as the elements demand if and only if
      none of its elements is misjudged. */
  lemma {:induction false} BatchThroughIff(o: Options, s: State, reqs: seq<RegisterRequest>)
    requires RegisterEach(o, s, reqs, false).Done?
    ensures PrefixesAgree(o, s, reqs) <==> BatchJudged(o, s, reqs)
  {
    hide Register, RegisterThrough, Misjudged;
    if reqs == [] {
      assert reqs[..0] == [];
    } else {
      var last := |reqs| - 1;
      var init := reqs[..last];
      assert reqs[..|reqs|] == reqs;
      assert forall k :: 0 <= k <= last ==> init[..k] == reqs[..k];
      BatchThroughIff(o, s, init);
      JudgedInit(o, s, reqs);
      PrefixesOfInit(o, s, reqs);
      if PrefixAgrees(o, s, reqs, last) {
        LastAgreesIff(o, s, reqs);
      }
      assert PrefixAgrees(o, s, init, last) == PrefixAgrees(o, s, reqs, last);
    }
  }

  ghost predicate PrefixAgrees(o: Options, s: State, reqs: seq<RegisterRequest>, k: nat)
    requires k <= |reqs|
  {
    RegisterEachThrough(o, s, s.fences, reqs[..k]) == RegisterEach(o, s, reqs[..k], false)
  }

  /** Every prefix of the batch is performed as its elements demand. */
  ghost predicate PrefixesAgree(o: Options, s: State, reqs: seq<RegisterRequest>) {
    forall k :: 0 <= k <= |reqs| ==> PrefixAgrees(o, s, reqs, k)
  }

  lemma PrefixesOfInit(o: Options, s: State, reqs: seq<RegisterRequest>)
    requires reqs != []
    ensures PrefixesAgree(o, s, reqs) <==> PrefixesAgree(o, s, reqs[..|reqs| - 1]) && PrefixAgrees(o, s, reqs, |reqs|)
  {
    hide RegisterEach, RegisterEachThrough;
    var init := reqs[..|reqs| - 1];
    assert forall k :: 0 <= k < |reqs| ==> init[..k] == reqs[..k];
    assert forall k :: 0 <= k < |reqs| ==> PrefixAgrees(o, s, init, k) == PrefixAgrees(o, s, reqs, k);
  }

  /** One more element agrees exactly when it is not misjudged. */
  lemma LastAgreesIff(o: Options, s: State, reqs: seq<RegisterRequest>)
    requires reqs != [] && RegisterEach(o, s, reqs, false).Done? && PrefixAgrees(o, s, reqs, |reqs| - 1)
    ensures PrefixAgrees(o, s, reqs, |reqs|) <==> !ElementMisjudged(o, s, reqs, |reqs| - 1)
  {
    hide Register, RegisterThrough, Misjudged;
    var last := |reqs| - 1;
    assert reqs[..|reqs|] == reqs;
    var before := RegisterEach(o, s, reqs[..last], false);
    var through, direct := RegisterThrough(o, before.state, s.fences, reqs[last], false), Register(o, before.state, reqs[last], false);
    RegisterThroughIff(o, before.state, s.fences, reqs[last], false);
    if through.Done? {
      EachAnswers(o, s, reqs[..last]);
      assert (before.result + [through.result])[last] == through.result;
      assert (before.result + [direct.result])[last] == direct.result;
    }
  }

  lemma {:induction false} EachAnswers(o: Options, s: State, reqs: seq<RegisterRequest>)
    ensures RegisterEach(o, s, reqs, false).Done? ==> |RegisterEach(o, s, reqs, false).result| == |reqs|
  {
    hide Register;
    if reqs != [] {
      EachAnswers(o, s, reqs[..|reqs| - 1]);
    }
  }

  lemma JudgedInit(o: Options, s: State, reqs: seq<RegisterRequest>)
    requires reqs != []
    ensures BatchJudged(o, s, reqs) <==>
              BatchJudged(o, s, reqs[..|reqs| - 1]) && !ElementMisjudged(o, s, reqs, |reqs| - 1)
  {
    hide Misjudged, RegisterEach;
    var init := reqs[..|reqs| - 1];
    assert forall k :: 0 <= k < |init| ==> init[..k] == reqs[..k] && init[k] == reqs[k];
    assert forall k :: 0 <= k < |init| ==> ElementMisjudged(o, s, init, k) == ElementMisjudged(o, s, reqs, k);
  }

  /** A judged batch is the batch it should be. */
  lemma {:induction false} JudgedEach(o: Options, s: State, reqs: seq<RegisterRequest>)
    requires BatchJudged(o, s, reqs)
    ensures RegisterEachThrough(o, s, s.fences, reqs) == RegisterEach(o, s, reqs, false)
  {
    hide Register, RegisterThrough, Misjudged;
    if reqs != [] {
      JudgedInit(o, s, reqs);
      JudgedEach(o, s, reqs[..|reqs| - 1]);
      var before := RegisterEach(o, s, reqs[..|reqs| - 1], false);
      if before.Done? {
        JudgedRegister(o, before.state, s.fences, reqs[|reqs| - 1]);
      }
    }
  }

  lemma JudgedRegister(o: Options, s: State, filed: seq<FenceRecord>, req: RegisterRequest)
    requires !Misjudged(o, s, filed, req)
    ensures RegisterThrough(o, s, filed, req, false) == Register(o, s, req, false)
  {
    hide ScreenThrough, Screen, RecordFence, RecordFenceThrough, EnrolWithinLimits, Misreads, Consults;
    JudgedScreens(o, s, filed, req);
    var v := Screen(o, s, req);
    if v.Replace? {
      ReplaceFacts(o, s, req);
      JudgedFence(o, s, filed, req.participant, v.incumbent, Reincarnation, []);
    }
  }

  lemma JudgedBatch(o: Options, s: State, reqs: seq<RegisterRequest>)
    requires BatchJudged(o, s, reqs)
    ensures RegisterBatchThrough(o, s, reqs) == RegisterBatch(o, s, reqs)
  {
    hide RegisterEach, RegisterEachThrough;
    JudgedEach(o, s, reqs);
  }

  // ---- when a batch is judged --------------------------------------------

  /** A registration adds at most one record to the history, and of its own participant. */
  lemma RegisterFences(o: Options, s: State, req: RegisterRequest)
    ensures var step := Register(o, s, req, false);
            step.Done? ==>
              && (step.state.fences == s.fences || (o.replacement == ReplaceIncumbent && exists r: FenceRecord ::
                   r.participant == req.participant && step.state.fences == Remember(s.fences, o.limits.maxRecentFences, r)))
  {
    hide ScreenStructure, ScreenKnown, LookupFence, Enrolled, Workers, Remember, FindIncarnation;
    ScreenRefusals(o, s, req);
    var v := Screen(o, s, req);
    if v.Replace? {
      ReplaceFencesOnce(o, s, req, v.incumbent);
    }
  }

  lemma ReplaceFencesOnce(o: Options, s: State, req: RegisterRequest, incumbent: Id)
    requires Screen(o, s, req).Replace? && Screen(o, s, req).incumbent == incumbent
    ensures var step := RecordFence(o, s, req.participant, incumbent, Reincarnation, [], false);
            step.Done? ==>
              step.state.fences == s.fences || exists r: FenceRecord ::
                r.participant == req.participant && step.state.fences == Remember(s.fences, o.limits.maxRecentFences, r)
  {
    hide Screen, LookupFence, FindIncarnation, Remember, FencedParticipant;
  }

  /** Under explicit fencing no batch can be misjudged. */
  lemma {:induction false} ExplicitFencesStand(o: Options, s: State, reqs: seq<RegisterRequest>)
    requires o.replacement == RequireExplicitFence
    ensures RegisterEach(o, s, reqs, false).Done? ==> RegisterEach(o, s, reqs, false).state.fences == s.fences
  {
    hide Register;
    if reqs != [] {
      ExplicitFencesStand(o, s, reqs[..|reqs| - 1]);
      var before := RegisterEach(o, s, reqs[..|reqs| - 1], false);
      if before.Done? {
        RegisterFences(o, before.state, reqs[|reqs| - 1]);
      }
    }
  }

  lemma ExplicitIsJudged(o: Options, s: State, reqs: seq<RegisterRequest>)
    requires o.replacement == RequireExplicitFence
    ensures BatchJudged(o, s, reqs)
  {
    hide RegisterEach, Misreads, Consults, Screen;
    forall k | 0 <= k < |reqs|
      ensures !ElementMisjudged(o, s, reqs, k)
    {
      ExplicitFencesStand(o, s, reqs[..k]);
      var before := RegisterEach(o, s, reqs[..k], false);
      if before.Done? {
        FreshIndexNeverMisreads(before.state, reqs[k].participant, reqs[k].boot);
        if Screen(o, before.state, reqs[k]).Replace? {
          FreshIndexNeverMisreads(before.state, reqs[k].participant, Screen(o, before.state, reqs[k]).incumbent);
        }
      }
    }
  }

  /** Where incumbents are replaced: distinct participants, and room in the history for a fence each. */
  predicate Roomy(o: Options, s: State, reqs: seq<RegisterRequest>) {
    && |s.fences| + |reqs| <= o.limits.maxRecentFences
    && forall i, j :: 0 <= i < j < |reqs| ==> reqs[i].participant != reqs[j].participant
  }

  /** The history has grown by records of these participants only. */
  predicate GrownBy(fences: seq<FenceRecord>, now: seq<FenceRecord>, reqs: seq<RegisterRequest>) {
    && fences <= now && |now| <= |fences| + |reqs|
    && forall i :: |fences| <= i < |now| ==> exists j :: 0 <= j < |reqs| && now[i].participant == reqs[j].participant
  }

  lemma {:induction false} BatchGrows(o: Options, s: State, reqs: seq<RegisterRequest>)
    requires |s.fences| + |reqs| <= o.limits.maxRecentFences
    ensures RegisterEach(o, s, reqs, false).Done? ==> GrownBy(s.fences, RegisterEach(o, s, reqs, false).state.fences, reqs)
  {
    hide Register;
    if reqs != [] {
      var last := |reqs| - 1;
      BatchGrows(o, s, reqs[..last]);
      var before := RegisterEach(o, s, reqs[..last], false);
      if before.Done? {
        RegisterFences(o, before.state, reqs[last]);
        var step := Register(o, before.state, reqs[last], false);
        if step.Done? {
          GrowsOne(s.fences, before.state.fences, step.state.fences, reqs, o.limits.maxRecentFences);
        }
      }
    }
  }

  lemma GrowsOne(fences: seq<FenceRecord>, now: seq<FenceRecord>, next: seq<FenceRecord>, reqs: seq<RegisterRequest>, bound: nat)
    requires reqs != [] && GrownBy(fences, now, reqs[..|reqs| - 1]) && |fences| + |reqs| <= bound
    requires next == now || exists r: FenceRecord :: r.participant == reqs[|reqs| - 1].participant && next == Remember(now, bound, r)
    ensures GrownBy(fences, next, reqs)
  {
    var last := |reqs| - 1;
    var more := if next == now then [] else next[|now|..];
    if next != now {
      var r: FenceRecord :| r.participant == reqs[last].participant && next == Remember(now, bound, r);
      assert more == [r];
    }
    assert next == now + more;
    assert now == fences + now[|fences|..];
    assert next == fences + (now[|fences|..] + more);
    forall i | |fences| <= i < |next|
      ensures exists j :: 0 <= j < |reqs| && next[i].participant == reqs[j].participant
    {
      if i < |now| {
        assert next[i] == now[i];
        var j :| 0 <= j < last && now[i].participant == reqs[..last][j].participant;
        assert reqs[..last][j] == reqs[j];
      } else {
        assert next[i].participant == reqs[last].participant;
      }
    }
  }

  lemma RoomyNeverMisreads(s: State, filed: seq<FenceRecord>, reqs: seq<RegisterRequest>, id: ParticipantId, boot: Id)
    requires GrownBy(filed, s.fences, reqs) && forall j :: 0 <= j < |reqs| ==> reqs[j].participant != id
    ensures !Misreads(s, filed, id, boot)
  {
    MissedIff(s, filed, id, boot);
    var later := s.fences[|filed|..];
    forall i | 0 <= i < |later|
      ensures later[i].participant != id
    {
      assert later[i] == s.fences[|filed| + i];
    }
  }

  /** A condition to check before the call: under it a batch is judged even where incumbents are
      replaced. */
  lemma RoomyIsJudged(o: Options, s: State, reqs: seq<RegisterRequest>)
    requires Roomy(o, s, reqs)
    ensures BatchJudged(o, s, reqs)
  {
    hide RegisterEach, Misreads, Consults, Screen, GrownBy;
    forall k | 0 <= k < |reqs|
      ensures !ElementMisjudged(o, s, reqs, k)
    {
      BatchGrows(o, s, reqs[..k]);
      var before := RegisterEach(o, s, reqs[..k], false);
      if before.Done? {
        RoomyNeverMisreads(before.state, s.fences, reqs[..k], reqs[k].participant, reqs[k].boot);
        if Screen(o, before.state, reqs[k]).Replace? {
          RoomyNeverMisreads(before.state, s.fences, reqs[..k], reqs[k].participant, Screen(o, before.state, reqs[k]).incumbent);
        }
      }
    }
  }
}
