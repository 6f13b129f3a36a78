/** Valid states in which an index filed too early misleads an operation. */
module Witnesses {
  import opened Basics
  import opened Model
  import opened Forest
  import opened Authority
  import opened Invariant
  import opened Preservation
  import opened Batch
  import opened Indexes
  import opened Stale
  import opened Retirement
  import opened Canonical
  import opened Validator
  import opened Settlement

  // ---- a retirement ------------------------------------------------------

  const ANNE: ParticipantId := ParticipantId([0x61])
  const BILL: ParticipantId := ParticipantId([0x62])

  /** Anne, with boots 1 and 2 live. */
  const TWO_BOOTS: Participant :=
    Participant(ANNE, 3, 0, 0, MultiIncarnation, false, false, true, 1, 1, 3, [ActiveIncarnation(2, 2, 3)], [], 2, 0, [], [])

  /** Bill, whose boot 2 was fenced. */
  const ONE_FENCED: Participant :=
    Participant(BILL, 1, 1, 1, SingleIncarnation, false, false, false, NIL, 0, 2, [], [], 1, 0, [2], [])

  /** A history of one record, of Bill's boot 2; Anne runs a boot of the same identifier. */
  const FULL_HISTORY: State :=
    State(1, 1, 4, 3, 1, map[ANNE := TWO_BOOTS, BILL := ONE_FENCED],
          [FenceRecord(2, BILL, ProcessLoss, 1, 1, 1, [])], [], [], [])

  lemma FullHistoryCounts()
    ensures Total(FULL_HISTORY.participants, Accepted) == 3 && Workers(FULL_HISTORY) == 2
    ensures |FULL_HISTORY.participants| == 2
  {
    var none: map<ParticipantId, Participant> := map[];
    var one := none[ANNE := TWO_BOOTS];
    assert ANNE != BILL by { assert ANNE.text[0] != BILL.text[0]; }
    assert FULL_HISTORY.participants == one[BILL := ONE_FENCED];
    TotalUpdate(none, Accepted, ANNE, TWO_BOOTS);
    TotalUpdate(one, Accepted, BILL, ONE_FENCED);
    TotalUpdate(none, LiveCount, ANNE, TWO_BOOTS);
    TotalUpdate(one, LiveCount, BILL, ONE_FENCED);
  }

  /** The engine accepts this state, and yet retiring Anne through the index leaves her boot 2 live:
      fencing boot 1 evicts Bill's record, and the index takes Anne's own record for a fence of
      boot 2. */
  lemma RetirementMisled(o: Options, req: RetireRequest)
    requires ViableOptions(o) && o.limits.maxRecentFences == 1 && o.limits.maxActiveWorkers >= 2
    requires req.attempt != NIL && req.expectedEpoch == 1 && req.participant == ANNE
    ensures Inv(o, FULL_HISTORY) && Retires(FULL_HISTORY, req) && RetireMisjudged(o, FULL_HISTORY, ANNE)
    ensures var step := RetireThrough(o, FULL_HISTORY, req);
            step.Done? ==> RetiredAlive(step.state, ANNE) && step != Retire(o, FULL_HISTORY, req)
  {
    hide RetireThrough, Retire, Shifted, Total, Inv, RetiredAlive;
    assert ANNE != BILL by { assert ANNE.text[0] != BILL.text[0]; }
    FullHistoryIsOk(o);
    SecondBootShifted(o);
    assert LiveBootsOf(FULL_HISTORY, ANNE)[1] == 2;
    assert RetireMisjudged(o, FULL_HISTORY, ANNE);
    MisjudgedRetirement(o, FULL_HISTORY, req);
    NotRetiredAlive(o, FULL_HISTORY, req);
  }

  lemma SecondBootShifted(o: Options)
    requires o.limits.maxRecentFences == 1
    ensures Shifted(o, FULL_HISTORY.fences, ANNE, 2, 1)
  {
    assert FULL_HISTORY.fences[0].boot == 2 && MovedOnto(o, FULL_HISTORY.fences, ANNE, 1, 0);
  }

  lemma FullHistoryIsOk(o: Options)
    requires ViableOptions(o) && o.limits.maxRecentFences == 1 && o.limits.maxActiveWorkers >= 2
    ensures Inv(o, FULL_HISTORY)
  {
    hide Total, ParticipantOk;
    assert ANNE != BILL by { assert ANNE.text[0] != BILL.text[0]; }
    FullHistoryCounts();
    ParticipantsAreOk(o);
  }

  lemma ParticipantsAreOk(o: Options)
    requires ViableOptions(o)
    ensures ParticipantOk(o, TWO_BOOTS, 3, 1) && ParticipantOk(o, ONE_FENCED, 3, 1)
  {
  }

  // ---- a batch -----------------------------------------------------------

  /** A state of one participant, which runs one incarnation and has at most one boot in its ring;
      well formed but for what relates live boots to the fence history. */
  predicate Lone(o: Options, s: State, p: Participant) {
    && s.participants == map[ANNE := p] && s.epoch == 1 && s.grants == [] && s.transitions == [] && s.control == []
    && p.id == ANNE && p.policy == SingleIncarnation && !p.retired && p.hasActiveBoot && p.extras == [] && |p.fencedBoots| <= 1
    && ParticipantOk(o, p, s.registrationFloor, s.fenceFloor)
    && forall f :: f in s.fences ==> f.participant == ANNE && f.boot != NIL && f.generation <= s.fenceFloor && f.epoch == 1
  }

  predicate Early(s: State, p: Participant, n: nat) {
    s.fenceFloor <= n && s.registrationFloor <= n && s.generation <= n && p.nextIncarnation <= n
  }

  /** A well-formed registration of Anne's, first seen by the participant. */
  predicate Registers(o: Options, p: Participant, req: RegisterRequest) {
    && req.attempt != NIL && req.participant == ANNE && req.boot != NIL && IsBoundedText(req.provenance, o.limits.maxStringSize)
    && req.scopes != [] && |req.scopes| <= o.limits.maxScopesPerGrant && RegistrableScopes(o, req.scopes)
    && req.policy == SingleIncarnation && req.expectedEpoch == 1 && req.expectedGeneration.None?
    && forall i :: 0 <= i < |p.idempotency| ==> p.idempotency[i].attempt != req.attempt
  }

  /** A registration through the index that replaces the incumbent: the history gains a record of it,
      and the ring, holding one, keeps nothing else. */
  lemma Replacing(o: Options, s: State, p: Participant, filed: seq<FenceRecord>, req: RegisterRequest, n: nat)
    requires ViableOptions(o) && o.replacement == ReplaceIncumbent && o.limits.maxFencedBoots == 1
    requires Lone(o, s, p) && Early(s, p, n) && n < 100 && Registers(o, p, req)
    requires p.activeBoot != req.boot && |s.fences| < o.limits.maxRecentFences
    requires !LookupThrough(s, filed, ANNE, req.boot).fenced && !LookupThrough(s, filed, ANNE, p.activeBoot).fenced
    ensures var step := RegisterThrough(o, s, filed, req, false);
            step.Done? && step.mutated && step.result.outcome == Registered && Replaced(o, s, p, req, step.state, n + 1)
  {
    hide ScreenThrough, LookupThrough, RecordFenceThrough, Remember, Total, Enrolled, FencedParticipant, ParticipantOk, Registers;
    ScreenReplaces(o, s, p, filed, req);
    FenceReplaces(o, s, p, filed);
    var s1 := RecordFenceThrough(o, s, filed, ANNE, p.activeBoot, Reincarnation, [], false).state;
    var p1 := FencedParticipant(o, p, p.activeBoot, p.activeIncarnation, s.fenceFloor + 1);
    Emptied(o, s, p);
    LoneWorkers(p1);
    FollowsOn(o, s1, p, p1, req);
    Structured(o, s, p, req);
    var s' := RegisterThrough(o, s, filed, req, false).state;
    assert s'.participants == map[ANNE := Enrolled(o, p1, req, s1.registrationFloor + 1)];
    assert s'.fences[..|s.fences|] == s.fences;
    assert OneMore(s.fences, s'.fences, p.activeBoot);
    assert Lone(o, s', s'.participants[ANNE]);
    assert Early(s', s'.participants[ANNE], n + 1);
  }

  lemma Structured(o: Options, s: State, p: Participant, req: RegisterRequest)
    requires Registers(o, p, req)
    ensures req.participant == ANNE && req.boot != NIL
  {
  }

  /** What a replacement leaves. */
  predicate Replaced(o: Options, s: State, p: Participant, req: RegisterRequest, s': State, n: nat) {
    && ANNE in s'.participants && Lone(o, s', s'.participants[ANNE]) && Early(s', s'.participants[ANNE], n)
    && OneMore(s.fences, s'.fences, p.activeBoot)
    && Follows(p, req, s'.participants[ANNE])
  }

  predicate OneMore(fences: seq<FenceRecord>, now: seq<FenceRecord>, boot: Id) {
    && |now| == |fences| + 1 && now[..|fences|] == fences
    && now[|fences|].boot == boot && now[|fences|].participant == ANNE
  }

  predicate Follows(p: Participant, req: RegisterRequest, p': Participant) {
    && p'.activeBoot == req.boot && p'.fencedBoots == [p.activeBoot]
    && forall a :: a in p'.idempotency ==> a.attempt == req.attempt || a in p.idempotency
  }

  lemma ScreenReplaces(o: Options, s: State, p: Participant, filed: seq<FenceRecord>, req: RegisterRequest)
    requires ViableOptions(o) && o.replacement == ReplaceIncumbent
    requires Lone(o, s, p) && Registers(o, p, req) && p.activeBoot != req.boot && !LookupThrough(s, filed, ANNE, req.boot).fenced
    ensures ScreenThrough(o, s, filed, req) == Replace(p.activeBoot)
  {
    hide LookupThrough, ParticipantOk;
    assert FindAttempt(p.idempotency, req.attempt).None?;
  }

  lemma FenceReplaces(o: Options, s: State, p: Participant, filed: seq<FenceRecord>)
    requires ViableOptions(o) && Lone(o, s, p) && s.fenceFloor < U64_MAX && s.generation < U64_MAX
    requires |s.fences| < o.limits.maxRecentFences && !LookupThrough(s, filed, ANNE, p.activeBoot).fenced
    ensures var step := RecordFenceThrough(o, s, filed, ANNE, p.activeBoot, Reincarnation, [], false);
            && step.Done? && step.mutated && step.result.outcome == FenceDone
            && step.state == s.(fenceFloor := s.fenceFloor + 1, generation := s.generation + 1,
                                participants := map[ANNE := FencedParticipant(o, p, p.activeBoot, p.activeIncarnation, s.fenceFloor + 1)],
                                fences := s.fences + [FenceRecord(p.activeBoot, ANNE, Reincarnation, s.fenceFloor + 1, 1,
                                                                  p.activeIncarnation, [])])
  {
    hide LookupThrough, ParticipantOk, FencedParticipant;
    assert FindIncarnation(p, p.activeBoot) == Some(p.activeIncarnation);
  }

  lemma Emptied(o: Options, s: State, p: Participant)
    requires ViableOptions(o) && o.limits.maxFencedBoots == 1 && Lone(o, s, p) && s.fenceFloor < U64_MAX
    ensures p.activeBoot != NIL
    ensures var p1 := FencedParticipant(o, p, p.activeBoot, p.activeIncarnation, s.fenceFloor + 1);
            && !p1.hasActiveBoot && p1.extras == [] && p1.fencedBoots == [p.activeBoot] && p1.nextIncarnation == p.nextIncarnation
            && p1.policy == p.policy && !p1.retired && p1.idempotency == p.idempotency && p1.id == ANNE
            && ParticipantOk(o, p1, s.registrationFloor, s.fenceFloor + 1)
  {
    assert FindIncarnation(p, p.activeBoot) == Some(p.activeIncarnation);
    FindsLive(p, p.activeBoot);
    FencedParticipantOk(o, s, p, p.activeBoot, p.activeIncarnation, s.fenceFloor + 1);
  }

  lemma LoneWorkers(p: Participant)
    ensures Total(map[ANNE := p], LiveCount) == LiveCount(p) && Total(map[ANNE := p], Accepted) == Accepted(p)
  {
    var none: map<ParticipantId, Participant> := map[];
    TotalUpdate(none, LiveCount, ANNE, p);
    TotalUpdate(none, Accepted, ANNE, p);
    assert none[ANNE := p] == map[ANNE := p];
  }

  lemma FollowsOn(o: Options, s1: State, p: Participant, p1: Participant, req: RegisterRequest)
    requires ViableOptions(o) && ParticipantOk(o, p1, s1.registrationFloor, s1.fenceFloor) && Registers(o, p, req)
    requires !p1.hasActiveBoot && p1.extras == [] && p1.fencedBoots == [p.activeBoot] && p1.idempotency == p.idempotency && p1.id == ANNE
    requires p1.policy == SingleIncarnation && !p1.retired && p1.nextIncarnation < U64_MAX && s1.registrationFloor < U64_MAX
    requires p.activeBoot != req.boot
    ensures var p' := Enrolled(o, p1, req, s1.registrationFloor + 1);
            && Follows(p, req, p') && ParticipantOk(o, p', s1.registrationFloor + 1, s1.fenceFloor)
            && p'.hasActiveBoot && p'.extras == [] && p'.nextIncarnation == p1.nextIncarnation + 1 && p'.policy == SingleIncarnation
            && !p'.retired && p'.id == ANNE
  {
    hide ParticipantOk;
    assert FindAttempt(p1.idempotency, req.attempt).None?;
    EnrolledOk(o, p1, req, s1.registrationFloor, s1.fenceFloor);
  }

  // ---- the misled batch --------------------------------------------------

  /** Anne, running her first boot. */
  const ONE_BOOT: Participant :=
    Participant(ANNE, 1, 0, 0, SingleIncarnation, false, false, true, 1, 1, 2, [], [], 1, 0, [], [])

  const FRESH_HISTORY: State := State(1, 1, 2, 1, 0, map[ANNE := ONE_BOOT], [], [], [], [])

  lemma FreshHistoryIsOk(o: Options)
    requires ViableOptions(o)
    ensures Inv(o, FRESH_HISTORY)
  {
    hide Total, ParticipantOk;
    LoneWorkers(ONE_BOOT);
    OneBootIsOk(o);
    assert |FRESH_HISTORY.participants| == 1;
  }

  lemma OneBootIsOk(o: Options)
    requires ViableOptions(o)
    ensures ParticipantOk(o, ONE_BOOT, 1, 0)
  {
  }

  /** Three registrations of Anne's, for boots 2, 3 and again 1. */
  predicate BackToFirst(o: Options, reqs: seq<RegisterRequest>) {
    && |reqs| == 3
    && (forall i :: 0 <= i < 3 ==> Registers(o, ONE_BOOT, reqs[i]))
    && reqs[0].boot == 2 && reqs[1].boot == 3 && reqs[2].boot == 1
    && reqs[0].attempt != reqs[1].attempt && reqs[0].attempt != reqs[2].attempt && reqs[1].attempt != reqs[2].attempt
  }

  /** A batch that replaces incumbents can bring a fenced boot back: the first element fences boot 1, the
      second pushes it out of the ring, and for the third the index, filed before the batch, knows
      nothing of it. All three are accepted, boot 1 is live beside its own fence record, and the
      validator, which does not compare the two, lets the state be saved. */
  lemma BatchMisled(o: Options, reqs: seq<RegisterRequest>)
    requires ViableOptions(o) && o.replacement == ReplaceIncumbent && o.limits.maxFencedBoots == 1 && o.limits.maxRecentFences >= 3
    requires BackToFirst(o, reqs)
    ensures Inv(o, FRESH_HISTORY) && !BatchJudged(o, FRESH_HISTORY, reqs)
    ensures var step := RegisterBatchThrough(o, FRESH_HISTORY, reqs);
            && step.Done? && (forall i :: 0 <= i < |step.result| ==> step.result[i].outcome == Registered)
            && ANNE in step.state.participants && BootLive(step.state.participants[ANNE], 1) && Recorded(step.state.fences, ANNE, 1)
            && Storable(step.state)
  {
    hide Inv, RegisterThrough, LookupThrough, Registers, BatchJudged, RegisterBatch, ParticipantOk, Storable;
    var s0 := FRESH_HISTORY;
    FreshHistoryIsOk(o);
    OneBootIsOk(o);
    Unknown(s0, ONE_BOOT, 1);
    Unknown(s0, ONE_BOOT, 2);
    Replacing(o, s0, ONE_BOOT, [], reqs[0], 2);
    var s1 := RegisterThrough(o, s0, [], reqs[0], false).state;
    var p1 := s1.participants[ANNE];
    Unknown(s1, p1, 2);
    Unknown(s1, p1, 3);
    StillRegisters(o, ONE_BOOT, reqs[0], p1, reqs[1]);
    StillRegisters(o, ONE_BOOT, reqs[0], p1, reqs[2]);
    Replacing(o, s1, p1, [], reqs[1], 3);
    var s2 := RegisterThrough(o, s1, [], reqs[1], false).state;
    var p2 := s2.participants[ANNE];
    Unknown(s2, p2, 3);
    Unknown(s2, p2, 1);
    StillRegisters(o, p1, reqs[1], p2, reqs[2]);
    Replacing(o, s2, p2, [], reqs[2], 4);
    ThreeElements(o, s0, reqs);
    var s3 := RegisterThrough(o, s2, [], reqs[2], false).state;
    ThreeFences(s1.fences, s2.fences, s3.fences);
    var step := RegisterBatchThrough(o, s0, reqs);
    LoneIsStorable(o, step.state, s3);
    if BatchJudged(o, s0, reqs) {
      JudgedBatch(o, s0, reqs);
      BatchKeeps(o, s0, reqs);
      LiveIsNotFenced(o, step.state, ANNE, 1);
      assert false;
    }
  }

  lemma ThreeFences(one: seq<FenceRecord>, two: seq<FenceRecord>, three: seq<FenceRecord>)
    requires OneMore([], one, 1) && OneMore(one, two, 2) && OneMore(two, three, 3)
    ensures |three| == 3 && three[0].boot == 1 && three[1].boot == 2 && three[2].boot == 3
    ensures Recorded(three, ANNE, 1)
  {
    assert three[0] == three[..2][0] == two[..1][0] && three[1] == three[..2][1];
  }

  lemma Singleton(p: Participant)
    ensures DistinctParticipants([p]) && ToMap([p]) == map[p.id := p]
  {
    var m := map[p.id := p];
    assert [p][0] == p && m[p.id] in [p];
    ToMapIs([p], m);
  }

  lemma LoneIsStorable(o: Options, s: State, s3: State)
    requires ViableOptions(o) && ANNE in s3.participants && Lone(o, s3, s3.participants[ANNE]) && s == s3.(generation := s.generation)
    requires |s3.fences| == 3 && s3.fences[0].boot == 1 && s3.fences[1].boot == 2 && s3.fences[2].boot == 3
    ensures Storable(s)
  {
    hide ParticipantOk, ValidParticipant, Total;
    var p := s3.participants[ANNE];
    var d := DurableState(1, s.coordinatorBoot, s.generation, s.registrationFloor, s.fenceFloor, [p], s.fences, [], [], []);
    MemberIsValid(o, d, p);
    Singleton(p);
    assert Abs(d) == s;
    assert FencePairs(d.fences)[0].1 == 1 && FencePairs(d.fences)[1].1 == 2 && FencePairs(d.fences)[2].1 == 3;
    assert AllBoots([p]) == LiveBoots(p) by {
      assert AllBoots([]) == [] && [p][..0] == [] && [p][1..] == [];
    }
    assert ValidDurable(d);
  }

  /** Through an index of no records, only the ring speaks. */
  lemma Unknown(s: State, p: Participant, boot: Id)
    requires s.participants == map[ANNE := p] && boot !in p.fencedBoots
    ensures !LookupThrough(s, [], ANNE, boot).fenced
  {
  }

  lemma StillRegisters(o: Options, p: Participant, first: RegisterRequest, p': Participant, req: RegisterRequest)
    requires Registers(o, p, req) && Follows(p, first, p') && first.attempt != req.attempt
    ensures Registers(o, p', req)
  {
    assert forall i :: 0 <= i < |p'.idempotency| ==> p'.idempotency[i] in p'.idempotency;
    assert forall a :: a in p.idempotency ==> a.attempt != req.attempt;
  }

  lemma ThreeElements(o: Options, s: State, reqs: seq<RegisterRequest>)
    requires |reqs| == 3 && s.fences == []
    requires var a := RegisterThrough(o, s, [], reqs[0], false);
             && a.Done?
             && var b := RegisterThrough(o, a.state, [], reqs[1], false);
             b.Done? && RegisterThrough(o, b.state, [], reqs[2], false).Done?
    ensures var a := RegisterThrough(o, s, [], reqs[0], false);
            var b := RegisterThrough(o, a.state, [], reqs[1], false);
            var c := RegisterThrough(o, b.state, [], reqs[2], false);
            RegisterEachThrough(o, s, s.fences, reqs) == Done(c.state, [a.result, b.result, c.result], a.mutated || b.mutated || c.mutated)
  {
    hide RegisterThrough;
    assert reqs[..2][..1] == reqs[..1] && reqs[..1][..0] == [];
    var a := RegisterThrough(o, s, [], reqs[0], false);
    var b := RegisterThrough(o, a.state, [], reqs[1], false);
    assert [] + [a.result] == [a.result] && [a.result] + [b.result] == [a.result, b.result];
    assert RegisterEachThrough(o, s, [], reqs[..0]) == Done(s, [], false);
    assert RegisterEachThrough(o, s, [], reqs[..1]) == Done(a.state, [a.result], a.mutated);
    var c := RegisterThrough(o, b.state, [], reqs[2], false);
    assert [a.result, b.result] + [c.result] == [a.result, b.result, c.result];
    assert RegisterEachThrough(o, s, [], reqs[..2]) == Done(b.state, [a.result, b.result], a.mutated || b.mutated);
  }
}
