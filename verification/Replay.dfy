/** Exactly-once: what an attempt table remembers, and what a retry is told. */
module Replay {
  import opened Basics
  import opened Model
  import opened Forest
  import opened Authority
  import opened Invariant
  import opened Preservation
  import opened Batch
  import opened Runs

  /** A table after the listed records were stored in it, oldest first. */
  function RememberAll(table: seq<AttemptRecord>, bound: nat, records: seq<AttemptRecord>): seq<AttemptRecord> {
    if records == [] then table
    else Remember(RememberAll(table, bound, records[..|records| - 1]), bound, records[|records| - 1])
  }

  ghost predicate Grows(bound: nat, table: seq<AttemptRecord>, table': seq<AttemptRecord>) {
    exists records :: table' == RememberAll(table, bound, records)
  }

  lemma {:induction false} RememberAllAppends(table: seq<AttemptRecord>, bound: nat, a: seq<AttemptRecord>, b: seq<AttemptRecord>)
    ensures RememberAll(RememberAll(table, bound, a), bound, b) == RememberAll(table, bound, a + b)
  {
    if b == [] {
      assert a + b == a;
    } else {
      var init := b[..|b| - 1];
      RememberAllAppends(table, bound, a, init);
      assert (a + b)[..|a + b| - 1] == a + init;
    }
  }

  lemma GrowsTransitive(bound: nat, t: seq<AttemptRecord>, t': seq<AttemptRecord>, t'': seq<AttemptRecord>)
    requires Grows(bound, t, t') && Grows(bound, t', t'')
    ensures Grows(bound, t, t'')
  {
    var a :| t' == RememberAll(t, bound, a);
    var b :| t'' == RememberAll(t', bound, b);
    RememberAllAppends(t, bound, a, b);
  }

  lemma GrowsItself(bound: nat, t: seq<AttemptRecord>)
    ensures Grows(bound, t, t)
  {
    assert RememberAll(t, bound, []) == t;
  }

  lemma GrowsByOne(bound: nat, t: seq<AttemptRecord>, record: AttemptRecord)
    ensures Grows(bound, t, Remember(t, bound, record))
  {
    assert [record][..0] == [];
    assert RememberAll(t, bound, [record]) == Remember(RememberAll(t, bound, []), bound, record);
  }

  /** The newest record outlives any number of later ones below the bound. */
  lemma {:induction false} NewestOutlives(table: seq<AttemptRecord>, bound: nat, records: seq<AttemptRecord>)
    requires table != [] && |table| <= bound && |records| < bound
    ensures var t := RememberAll(table, bound, records);
            |records| < |t| <= bound && t[|t| - 1 - |records|] == table[|table| - 1]
  {
    if records != [] {
      NewestOutlives(table, bound, records[..|records| - 1]);
    }
  }

  // ---- every step only remembers -----------------------------------------

  ghost predicate TablesGrow(o: Options, s: State, s': State) {
    && s.participants.Keys <= s'.participants.Keys
    && (forall id :: id in s.participants ==>
          Grows(o.limits.maxIdempotencyRecords, s.participants[id].idempotency, s'.participants[id].idempotency))
    && Grows(o.limits.maxIdempotencyRecords, s.control, s'.control)
  }

  lemma TablesGrowTransitive(o: Options, s: State, s': State, s'': State)
    requires TablesGrow(o, s, s') && TablesGrow(o, s', s'')
    ensures TablesGrow(o, s, s'')
  {
    hide Grows;
    var k := o.limits.maxIdempotencyRecords;
    GrowsTransitive(k, s.control, s'.control, s''.control);
    forall id | id in s.participants
      ensures Grows(k, s.participants[id].idempotency, s''.participants[id].idempotency)
    {
      GrowsTransitive(k, s.participants[id].idempotency, s'.participants[id].idempotency, s''.participants[id].idempotency);
    }
  }

  /** Tables that are the same, or one record longer for a single participant. */
  lemma TablesGrowBy(o: Options, s: State, s': State)
    requires s.participants.Keys <= s'.participants.Keys
    requires forall id :: id in s.participants ==>
               s'.participants[id].idempotency == s.participants[id].idempotency || RemembersOne(o, s.participants[id], s'.participants[id])
    requires s'.control == s.control
             || exists r :: s'.control == Remember(s.control, o.limits.maxIdempotencyRecords, r)
    ensures TablesGrow(o, s, s')
  {
    hide Grows;
    var k := o.limits.maxIdempotencyRecords;
    GrowsItself(k, s.control);
    if s'.control != s.control {
      var r :| s'.control == Remember(s.control, k, r);
      GrowsByOne(k, s.control, r);
    }
    forall id | id in s.participants
      ensures Grows(k, s.participants[id].idempotency, s'.participants[id].idempotency)
    {
      var p, p' := s.participants[id], s'.participants[id];
      GrowsItself(k, p.idempotency);
      if p'.idempotency != p.idempotency {
        var r :| p'.idempotency == Remember(p.idempotency, k, r);
        GrowsByOne(k, p.idempotency, r);
      }
    }
  }

  ghost predicate RemembersOne(o: Options, p: Participant, p': Participant) {
    exists r :: p'.idempotency == Remember(p.idempotency, o.limits.maxIdempotencyRecords, r)
  }

  lemma FenceGrows(o: Options, s: State, id: ParticipantId, boot: Id, reason: FenceReason, note: Bytes, defensive: bool)
    ensures var step := RecordFence(o, s, id, boot, reason, note, defensive); step.Done? ==> TablesGrow(o, s, step.state)
  {
    hide RecordFence, TablesGrow, Remember;
    RecordFenceFrame(o, s, id, boot, reason, note, defensive);
    var step := RecordFence(o, s, id, boot, reason, note, defensive);
    if step.Done? {
      TablesGrowBy(o, s, step.state);
    }
  }

  lemma EnrolGrows(o: Options, s: State, req: RegisterRequest, commit: bool, mutated: bool)
    ensures var step := EnrolWithinLimits(o, s, req, commit, mutated); step.Done? ==> TablesGrow(o, s, step.state)
  {
    hide TablesGrow, Remember;
    var step := EnrolWithinLimits(o, s, req, commit, mutated);
    if step.Done? {
      TablesGrowBy(o, s, step.state);
    }
  }

  lemma RegisterGrows(o: Options, s: State, req: RegisterRequest, commit: bool)
    ensures var step := Register(o, s, req, commit); step.Done? ==> TablesGrow(o, s, step.state)
  {
    hide TablesGrow, Screen, RecordFence, EnrolWithinLimits;
    TablesGrowBy(o, s, s);
    EnrolGrows(o, s, req, commit, false);
    var verdict := Screen(o, s, req);
    if verdict.Replace? {
      FenceGrows(o, s, req.participant, verdict.incumbent, Reincarnation, [], false);
      var fence := RecordFence(o, s, req.participant, verdict.incumbent, Reincarnation, [], false);
      var step := Register(o, s, req, commit);
      if fence.Done? && step.Done? {
        EnrolGrows(o, fence.state, req, commit, fence.mutated);
        TablesGrowBy(o, fence.state, fence.state);
        TablesGrowTransitive(o, s, fence.state, step.state);
      }
    }
  }

  lemma {:induction false} RegisterEachGrows(o: Options, s: State, reqs: seq<RegisterRequest>)
    ensures var step := RegisterEach(o, s, reqs, false); step.Done? ==> TablesGrow(o, s, step.state)
  {
    hide TablesGrow, Register;
    if reqs == [] {
      TablesGrowBy(o, s, s);
    } else {
      RegisterEachGrows(o, s, reqs[..|reqs| - 1]);
      var before := RegisterEach(o, s, reqs[..|reqs| - 1], false);
      var step := RegisterEach(o, s, reqs, false);
      if step.Done? {
        RegisterGrows(o, before.state, reqs[|reqs| - 1], false);
        TablesGrowTransitive(o, s, before.state, step.state);
      }
    }
  }

  lemma {:induction false} FenceEachGrows(o: Options, s: State, id: ParticipantId, boots: seq<Id>, note: Bytes)
    ensures var step := FenceEach(o, s, id, boots, note); step.Done? ==> TablesGrow(o, s, step.state)
  {
    hide TablesGrow, RecordFence;
    if boots == [] {
      TablesGrowBy(o, s, s);
    } else {
      FenceEachGrows(o, s, id, boots[..|boots| - 1], note);
      var before := FenceEach(o, s, id, boots[..|boots| - 1], note);
      var step := FenceEach(o, s, id, boots, note);
      if step.Done? {
        FenceGrows(o, before.state, id, boots[|boots| - 1], AdministrativeRevoke, note, false);
        TablesGrowTransitive(o, s, before.state, step.state);
      }
    }
  }

  lemma FenceWorkerGrows(o: Options, s: State, req: FenceRequest)
    ensures var step := FenceWorker(o, s, req); step.Done? ==> TablesGrow(o, s, step.state)
  {
    hide TablesGrow, RecordFence, FindAttempt, Remember;
    TablesGrowBy(o, s, s);
    FenceGrows(o, s, req.participant, req.boot, req.reason, req.note, true);
    var fence := RecordFence(o, s, req.participant, req.boot, req.reason, req.note, true);
    var step := FenceWorker(o, s, req);
    if fence.Done? && step.Done? && step.mutated {
      TablesGrowBy(o, fence.state, step.state);
      TablesGrowTransitive(o, s, fence.state, step.state);
    }
  }

  lemma RetireGrows(o: Options, s: State, req: RetireRequest)
    ensures var step := Retire(o, s, req); step.Done? ==> TablesGrow(o, s, step.state)
  {
    hide TablesGrow, FenceEach, FindAttempt, Remember;
    TablesGrowBy(o, s, s);
    var step := Retire(o, s, req);
    if step.Done? && step.mutated {
      var boots := LiveBoots(s.participants[req.participant]);
      FenceEachGrows(o, s, req.participant, boots, req.note);
      var fenced := FenceEach(o, s, req.participant, boots, req.note);
      TablesGrowBy(o, fenced.state, step.state);
      TablesGrowTransitive(o, s, fenced.state, step.state);
    }
  }

  lemma RevokeGrows(o: Options, s: State, req: RevokeRequest)
    ensures var step := RevokeAuthority(o, s, req); step.Done? ==> TablesGrow(o, s, step.state)
  {
    hide TablesGrow, FindAttempt, IndexOf, NewlyRevoked, RevokeSubtree, Remember, RemembersOne;
    TablesGrowBy(o, s, s);
    if RevokeAuthority(o, s, req).Done? {
      TablesGrowBy(o, s, RevokeAuthority(o, s, req).state);
    }
  }

  lemma EpochGrows(o: Options, s: State, req: AdvanceRequest, transition: Id, boot: Id)
    ensures var step := AdvanceEpoch(o, s, req, transition); step.Done? ==> TablesGrow(o, s, step.state)
    ensures var step := Reopen(o, s, boot, transition); step.Done? ==> TablesGrow(o, s, step.state)
  {
    hide TablesGrow, FindAttempt, Remember, RemembersOne;
    TablesGrowBy(o, s, s);
    if AdvanceEpoch(o, s, req, transition).Done? {
      TablesGrowBy(o, s, AdvanceEpoch(o, s, req, transition).state);
    }
    if Reopen(o, s, boot, transition).Done? {
      TablesGrowBy(o, s, Reopen(o, s, boot, transition).state);
    }
  }

  lemma GrantGrows(o: Options, s: State, req: GrantRequest, id: Id)
    ensures var step := GrantAuthority(o, s, req, id); step.Done? ==> TablesGrow(o, s, step.state)
  {
    hide TablesGrow, FindAttempt, Evaluate, MayDelegate, ScopesWithin, NewGrant, Remember;
    TablesGrowBy(o, s, s);
    var step := GrantAuthority(o, s, req, id);
    if step.Done? && step.mutated {
      TablesGrowBy(o, s, step.state);
    }
  }

  lemma StepGrows(o: Options, s: State, op: Op, s': State)
    requires Apply(o, s, op) == Some(s')
    ensures TablesGrow(o, s, s')
  {
    hide TablesGrow, Register, RegisterEach, FenceWorker, RecordFence, Retire, GrantAuthority, RevokeAuthority, AdvanceEpoch, Reopen;
    TablesGrowBy(o, s, s);
    match op
    case DoRegister(req) => RegisterGrows(o, s, req, true);
    case DoBatch(reqs) =>
      RegisterEachGrows(o, s, reqs);
      var each := RegisterEach(o, s, reqs, false);
      TablesGrowBy(o, each.state, s');
      TablesGrowTransitive(o, s, each.state, s');
    case DoFence(req) => FenceWorkerGrows(o, s, req);
    case DoLoseSession(id, boot, reason) => FenceGrows(o, s, id, boot, FenceReasonFor(reason), [], false);
    case DoRetire(req) => RetireGrows(o, s, req);
    case DoGrant(req, id) => GrantGrows(o, s, req, id);
    case DoRevoke(req) => RevokeGrows(o, s, req);
    case DoAdvance(req, t) => EpochGrows(o, s, req, t, NIL);
    case DoReopen(boot, t) => EpochGrows(o, s, AdvanceRequest(NIL, 0, CoordinatorStart, []), t, boot);
  }

  /** Along a run, attempt tables change only by remembering newer attempts. */
  lemma {:induction false} RunsOnlyRemember(o: Options, trace: seq<State>, ops: seq<Op>, j: nat, k: nat)
    requires ViableOptions(o) && IsRun(o, trace, ops) && j <= k < |trace|
    ensures TablesGrow(o, trace[j], trace[k])
    decreases k
  {
    hide TablesGrow, Apply, Opened, Follows, Inv, BootsUnique;
    if j == k {
      TablesGrowBy(o, trace[j], trace[j]);
    } else {
      RunsOnlyRemember(o, trace, ops, j, k - 1);
      RunStep(o, trace, ops, k - 1);
      StepGrows(o, trace[k - 1], ops[k - 1], trace[k]);
      TablesGrowTransitive(o, trace[j], trace[k - 1], trace[k]);
    }
  }

  // ---- retries -----------------------------------------------------------

  lemma TableBounded(table: seq<AttemptRecord>, bound: nat)
    requires TableOk(table, bound)
    ensures |table| <= bound
  {
  }

  lemma FindsTheOne(table: seq<AttemptRecord>, bound: nat, i: nat)
    requires i < |table| && TableOk(table, bound)
    ensures FindAttempt(table, table[i].attempt) == Some(table[i])
  {
    hide FindAttempt;
    var found := FindAttempt(table, table[i].attempt);
    if found.Some? {
      var j :| 0 <= j < |table| && table[j] == found.value;
    }
  }

  /** A record that was newest at one point of a run is still found later, while fewer than
      `bound` newer attempts entered its table. */
  lemma StillFound(table: seq<AttemptRecord>, later: seq<AttemptRecord>, bound: nat, newer: seq<AttemptRecord>)
    requires table != [] && TableOk(table, bound) && TableOk(later, bound)
    requires later == RememberAll(table, bound, newer) && |newer| < bound
    ensures var record := table[|table| - 1]; FindAttempt(later, record.attempt) == Some(record)
  {
    hide FindAttempt, RememberAll, TableOk;
    TableBounded(table, bound);
    NewestOutlives(table, bound, newer);
    var i: nat := |later| - 1 - |newer|;
    assert later[i] == table[|table| - 1];
    FindsTheOne(later, bound, i);
  }

  /** The record an accepted registration leaves behind is the newest of its table. */
  lemma RegistrationIsRecorded(o: Options, s: State, req: RegisterRequest, commit: bool)
    ensures var step := Register(o, s, req, commit);
            step.Done? && step.result.outcome == Registered && !step.result.replayed ==>
              && req.participant in step.state.participants
              && var table := step.state.participants[req.participant].idempotency;
                 && table != [] && step.result.registrationGeneration.Some? && step.result.incarnation.Some?
                 && table[|table| - 1] == RegistrationRecord(o, req, step.result.registrationGeneration.value, step.result.incarnation.value)
  {
    hide RecordFence, FindAttempt, FindIncarnation, LookupFence, Workers, IsBoundedText, RegistrableScopes, Screen;
    RegistrationScreens(o, s, req);
  }

  lemma RegistrationScreens(o: Options, s: State, req: RegisterRequest)
    ensures var v := Screen(o, s, req); v.Refuse? ==> (v.result.outcome == Registered ==> v.result.replayed)
  {
    ScreenRefusals(o, s, req);
  }

  /** The request passes every gate a registration meets before its attempt is looked up. */
  predicate Presentable(o: Options, s: State, req: RegisterRequest) {
    && ScreenStructure(o, s, req).Admit? && req.participant in s.participants
    && !s.participants[req.participant].retired && !LookupFence(s, req.participant, req.boot).fenced
  }

  /** The same semantic request, however its expectation fields were refreshed. */
  predicate Retries(o: Options, retry: RegisterRequest, req: RegisterRequest) {
    retry.attempt == req.attempt && retry.participant == req.participant && o.digest(Registering(retry)) == o.digest(Registering(req))
  }

  predicate Accepts(step: Step<RegistrationResult>) {
    step.Done? && step.result.outcome == Registered && !step.result.replayed
  }

  /** Between two valid states: what an accepted registration recorded answers its retry. */
  lemma AcceptedAnswersAgain(o: Options, s: State, req: RegisterRequest, commit: bool, t: State,
                             newer: seq<AttemptRecord>, retry: RegisterRequest)
    requires ViableOptions(o) && Inv(o, s) && Inv(o, t) && Accepts(Register(o, s, req, commit))
    requires var s1 := Register(o, s, req, commit).state;
             && req.participant in s1.participants && req.participant in t.participants
             && t.participants[req.participant].idempotency ==
                RememberAll(s1.participants[req.participant].idempotency, o.limits.maxIdempotencyRecords, newer)
    requires |newer| < o.limits.maxIdempotencyRecords && Retries(o, retry, req) && Presentable(o, t, retry)
    ensures var first := Register(o, s, req, commit).result;
            forall c :: Register(o, t, retry, c) ==
              Done(t, first.(epoch := t.epoch, coordinatorBoot := t.coordinatorBoot, replayed := true), false)
  {
    hide Inv, LookupFence, ScreenStructure, FindAttempt, Register, RegistrationRecord, RegistrationOutcomeOf, TableOk, LiveOk, RingOk, CountersOk;
    var s1 := Register(o, s, req, commit).state;
    RegistrationRecordIs(o, s, req, commit);
    RegistrationIsRecorded(o, s, req, commit);
    RegisterKeeps(o, s, req, commit);
    KnownParticipantOk(o, s1, req.participant);
    KnownParticipantOk(o, t, req.participant);
    var table := s1.participants[req.participant].idempotency;
    StillFound(table, t.participants[req.participant].idempotency, o.limits.maxIdempotencyRecords, newer);
    RegistrationIssuesSequences(o, s, req, commit);
    RegistrationRetried(o, t, retry, table[|table| - 1]);
  }

  /** Exactly once. After an accepted registration, a later retry of the same semantic request,
      alone or in a batch, is answered with the outcome, generation and incarnation recorded the
      first time and changes nothing, as long as fewer than the bounded number of newer attempts
      entered that participant's table and the earlier gates still pass. */
  lemma RegistrationIsExactlyOnce(o: Options, trace: seq<State>, ops: seq<Op>, i: nat, k: nat,
                                  req: RegisterRequest, newer: seq<AttemptRecord>, retry: RegisterRequest)
    requires ViableOptions(o) && IsRun(o, trace, ops) && i < k < |trace| && ops[i] == DoRegister(req)
    requires Accepts(Register(o, trace[i], req, true))
    requires req.participant in trace[i + 1].participants && req.participant in trace[k].participants
    requires trace[k].participants[req.participant].idempotency ==
               RememberAll(trace[i + 1].participants[req.participant].idempotency, o.limits.maxIdempotencyRecords, newer)
    requires |newer| < o.limits.maxIdempotencyRecords && Retries(o, retry, req) && Presentable(o, trace[k], retry)
    ensures var first := Register(o, trace[i], req, true).result;
            forall commit :: Register(o, trace[k], retry, commit) ==
              Done(trace[k], first.(epoch := trace[k].epoch, coordinatorBoot := trace[k].coordinatorBoot, replayed := true), false)
  {
    hide Inv, BootsUnique, Register, Follows, Apply, Presentable, Retries;
    RunStep(o, trace, ops, i);
    AppliedState(o, trace[i], ops[i], trace[i + 1]);
    RunsKeepInvariant(o, trace, ops, i);
    RunsKeepInvariant(o, trace, ops, k);
    AcceptedAnswersAgain(o, trace[i], req, true, trace[k], newer, retry);
  }

  /** Each answer of a batch is that of its own request, met where its predecessors left off. */
  lemma {:induction false} AnswerOfElement(o: Options, s: State, reqs: seq<RegisterRequest>, j: nat)
    requires j < |reqs| && RegisterEach(o, s, reqs, false).Done?
    ensures var before := RegisterEach(o, s, reqs[..j], false);
            var after := RegisterEach(o, s, reqs[..j + 1], false);
            && before.Done? && after.Done? && |RegisterEach(o, s, reqs, false).result| == |reqs|
            && var step := Register(o, before.state, reqs[j], false);
               step.Done? && step.state == after.state && step.result == RegisterEach(o, s, reqs, false).result[j]
  {
    hide Register;
    var last := |reqs| - 1;
    var init := reqs[..last];
    assert reqs[..|reqs|] == reqs;
    if last > 0 {
      AnswerOfElement(o, s, init, if j < last then j else 0);
    }
    if j < last {
      assert init[..j] == reqs[..j] && init[..j + 1] == reqs[..j + 1];
    }
  }

  /** Exactly once, for the elements of a batch: the answer a batch gave one of its requests is the
      answer every later retry of that request gets. */
  lemma BatchElementIsExactlyOnce(o: Options, trace: seq<State>, ops: seq<Op>, i: nat, k: nat, reqs: seq<RegisterRequest>, j: nat,
                                  newer: seq<AttemptRecord>, retry: RegisterRequest)
    requires ViableOptions(o) && IsRun(o, trace, ops) && i < k < |trace| && ops[i] == DoBatch(reqs) && j < |reqs|
    requires var batch := RegisterBatch(o, trace[i], reqs);
             && batch.Done? && |batch.result| == |reqs|
             && batch.result[j].outcome == Registered && !batch.result[j].replayed
    requires var after := RegisterEach(o, trace[i], reqs[..j + 1], false);
             && after.Done? && reqs[j].participant in after.state.participants && reqs[j].participant in trace[k].participants
             && trace[k].participants[reqs[j].participant].idempotency ==
                RememberAll(after.state.participants[reqs[j].participant].idempotency, o.limits.maxIdempotencyRecords, newer)
    requires |newer| < o.limits.maxIdempotencyRecords && Retries(o, retry, reqs[j]) && Presentable(o, trace[k], retry)
    ensures var first := RegisterBatch(o, trace[i], reqs).result[j];
            forall commit :: Register(o, trace[k], retry, commit) ==
              Done(trace[k], first.(epoch := trace[k].epoch, coordinatorBoot := trace[k].coordinatorBoot, replayed := true), false)
  {
    hide Inv, BootsUnique, Register, Follows, Presentable, Retries, RegisterEach;
    RunsKeepInvariant(o, trace, ops, i);
    RunsKeepInvariant(o, trace, ops, k);
    AnswerOfElement(o, trace[i], reqs, j);
    RegisterEachKeeps(o, trace[i], reqs[..j]);
    AcceptedAnswersAgain(o, RegisterEach(o, trace[i], reqs[..j], false).state, reqs[j], false, trace[k], newer, retry);
  }

  lemma RunStep(o: Options, trace: seq<State>, ops: seq<Op>, i: nat)
    requires ViableOptions(o) && IsRun(o, trace, ops) && i < |ops|
    ensures Apply(o, trace[i], ops[i]) == Some(trace[i + 1])
  {
    hide Apply, BootsUnique, Inv, Follows;
    RunsKeepInvariant(o, trace, ops, i);
    FollowsApplies(o, trace[i], ops[i], trace[i + 1]);
  }

  /** Where a step of a run leads is the state its operation answers with. */
  lemma AppliedState(o: Options, s: State, op: Op, s': State)
    requires Apply(o, s, op) == Some(s')
    ensures op.DoRegister? ==> Register(o, s, op.register, true).Done? && Register(o, s, op.register, true).state == s'
    ensures op.DoFence? ==> FenceWorker(o, s, op.fence).Done? && FenceWorker(o, s, op.fence).state == s'
    ensures op.DoRetire? ==> Retire(o, s, op.retire).Done? && Retire(o, s, op.retire).state == s'
    ensures op.DoGrant? ==> GrantAuthority(o, s, op.grant, op.grantId).Done? && GrantAuthority(o, s, op.grant, op.grantId).state == s'
    ensures op.DoRevoke? ==> RevokeAuthority(o, s, op.revoke).Done? && RevokeAuthority(o, s, op.revoke).state == s'
    ensures op.DoAdvance? ==> AdvanceEpoch(o, s, op.advance, op.transition).Done? && AdvanceEpoch(o, s, op.advance, op.transition).state == s'
  {
    hide Register, FenceWorker, Retire, GrantAuthority, RevokeAuthority, AdvanceEpoch;
  }

  /** A request whose attempt is on record, past the earlier gates, is answered from the record. */
  lemma RegistrationRetried(o: Options, s: State, retry: RegisterRequest, record: AttemptRecord)
    requires ScreenStructure(o, s, retry).Admit? && retry.participant in s.participants
    requires !s.participants[retry.participant].retired && !LookupFence(s, retry.participant, retry.boot).fenced
    requires FindAttempt(s.participants[retry.participant].idempotency, retry.attempt) == Some(record)
    requires record.semantic == o.digest(Registering(retry))
    ensures forall commit ::
              Register(o, s, retry, commit) ==
              Done(s, RegistrationResult(RegistrationOutcomeOf(record.outcome), s.epoch, s.coordinatorBoot, Some(record.auxiliary),
                                         if record.auxiliaryHigh != 0 then Some(record.auxiliaryHigh) else None, true), false)
  {
    hide LookupFence, ScreenStructure, FindAttempt, FindIncarnation, RecordFence, EnrolWithinLimits;
  }

  lemma RegistrationRecordIs(o: Options, s: State, req: RegisterRequest, commit: bool)
    ensures forall g: U64, q: U64 ::
              var r := RegistrationRecord(o, req, g, q);
              r.attempt == req.attempt && r.semantic == o.digest(Registering(req)) && RegistrationOutcomeOf(r.outcome) == Registered
              && r.auxiliary == g && r.auxiliaryHigh == q
    ensures var step := Register(o, s, req, commit);
            step.Done? && step.result.outcome == Registered && !step.result.replayed ==>
              step.result == RegistrationResult(Registered, step.result.epoch, step.result.coordinatorBoot,
                                                step.result.registrationGeneration, step.result.incarnation, false)
  {
    hide Register;
  }

  lemma RegistrationIssuesSequences(o: Options, s: State, req: RegisterRequest, commit: bool)
    requires ViableOptions(o) && Inv(o, s)
    ensures var step := Register(o, s, req, commit);
            step.Done? && step.result.outcome == Registered && !step.result.replayed ==> step.result.incarnation.Some? && step.result.incarnation.value > 0
  {
    hide Inv, FindAttempt, FindIncarnation, LookupFence, Workers, IsBoundedText, RegistrableScopes, Screen, RecordFence;
    RegistrationScreens(o, s, req);
    if req.participant in s.participants {
      KnownParticipantOk(o, s, req.participant);
    }
    var v := Screen(o, s, req);
    if v.Replace? {
      RecordFenceFrame(o, s, req.participant, v.incumbent, Reincarnation, [], false);
    }
  }

  /** A retained attempt identifier is never executed again: whatever request reuses it, the
      answer is a replay, a conflict or an earlier refusal, and the state does not change. */
  lemma RetainedAttemptNeverMutates(o: Options, s: State, id: ParticipantId, attempt: Id)
    requires id in s.participants && FindAttempt(s.participants[id].idempotency, attempt).Some?
    ensures forall req: RegisterRequest, commit :: req.participant == id && req.attempt == attempt ==>
              var step := Register(o, s, req, commit); step.Done? && !step.mutated && step.state == s
    ensures forall req: FenceRequest :: req.participant == id && req.attempt == attempt ==>
              var step := FenceWorker(o, s, req); step.Done? && !step.mutated && step.state == s
    ensures forall req: RetireRequest :: req.participant == id && req.attempt == attempt ==>
              var step := Retire(o, s, req); step.Done? && !step.mutated && step.state == s
    ensures forall req: GrantRequest, g: Id :: req.participant == id && req.attempt == attempt ==>
              var step := GrantAuthority(o, s, req, g); step.Done? && !step.mutated && step.state == s
  {
    hide FindAttempt, FindIncarnation, LookupFence, IsBoundedText, RegistrableScopes, RecordFence, FenceEach, Evaluate, MayDelegate, ScopesWithin, EnrolWithinLimits, AddGrant;
  }

  lemma RetainedControlNeverMutates(o: Options, s: State, attempt: Id)
    requires FindAttempt(s.control, attempt).Some?
    ensures forall req: RevokeRequest :: req.attempt == attempt ==>
              var step := RevokeAuthority(o, s, req); step.Done? && !step.mutated && step.state == s
    ensures forall req: AdvanceRequest, t: Id :: req.attempt == attempt ==>
              var step := AdvanceEpoch(o, s, req, t); step.Done? && !step.mutated && step.state == s
  {
    hide FindAttempt, IndexOf, RevokeTree, MutateEpoch;
  }

  /** Epoch advancement is exactly-once even though the retry carries the epoch expected before. */
  lemma AdvanceIsExactlyOnce(o: Options, trace: seq<State>, ops: seq<Op>, i: nat, k: nat,
                             req: AdvanceRequest, t: Id, newer: seq<AttemptRecord>, t2: Id)
    requires ViableOptions(o) && IsRun(o, trace, ops) && i < k < |trace| && ops[i] == DoAdvance(req, t)
    requires var step := AdvanceEpoch(o, trace[i], req, t); step.Done? && step.mutated
    requires trace[k].control == RememberAll(trace[i + 1].control, o.limits.maxIdempotencyRecords, newer)
    requires |newer| < o.limits.maxIdempotencyRecords
    ensures var retry := AdvanceEpoch(o, trace[k], req, t2);
            && retry.Done? && retry.state == trace[k] && !retry.mutated
            && retry.result.outcome == Advanced && retry.result.replayed && retry.result.epoch == trace[i].epoch + 1
  {
    hide Inv, BootsUnique, Follows, Apply, FindAttempt, AdvanceEpoch, TableOk, ViableOptions, RememberAll, Opened;
    AdvanceIsRecorded(o, trace[i], req, t);
    RunStep(o, trace, ops, i);
    AppliedState(o, trace[i], ops[i], trace[i + 1]);
    NewestControlAnswers(o, trace, ops, i + 1, k, newer);
    AdvanceRetried(o, trace[k], req, trace[i + 1].control[|trace[i + 1].control| - 1], t2);
  }

  lemma ControlTableOk(o: Options, s: State)
    requires Inv(o, s)
    ensures TableOk(s.control, o.limits.maxIdempotencyRecords)
  {
  }

  // ---- the other operations ------------------------------------------------

  /** A table that ends in this record, later grown by fewer than the bound, still answers with it. */
  lemma NewestStillAnswers(o: Options, trace: seq<State>, ops: seq<Op>, j: nat, k: nat, id: ParticipantId,
                           record: AttemptRecord, newer: seq<AttemptRecord>)
    requires ViableOptions(o) && IsRun(o, trace, ops) && j <= k < |trace|
    requires id in trace[j].participants && id in trace[k].participants
    requires var table := trace[j].participants[id].idempotency; table != [] && table[|table| - 1] == record
    requires trace[k].participants[id].idempotency ==
             RememberAll(trace[j].participants[id].idempotency, o.limits.maxIdempotencyRecords, newer)
    requires |newer| < o.limits.maxIdempotencyRecords
    ensures FindAttempt(trace[k].participants[id].idempotency, record.attempt) == Some(record)
  {
    hide Inv, IsRun, FindAttempt, LiveOk, RingOk, CountersOk, TableOk;
    RunsKeepInvariant(o, trace, ops, j);
    RunsKeepInvariant(o, trace, ops, k);
    KnownParticipantOk(o, trace[j], id);
    KnownParticipantOk(o, trace[k], id);
    StillFound(trace[j].participants[id].idempotency, trace[k].participants[id].idempotency, o.limits.maxIdempotencyRecords, newer);
  }

  lemma FenceIsRecorded(o: Options, s: State, req: FenceRequest)
    ensures var step := FenceWorker(o, s, req);
            step.Done? && step.mutated ==>
              && step.result.outcome == FenceDone && step.result.fenceGeneration.Some?
              && req.participant in step.state.participants
              && var table := step.state.participants[req.participant].idempotency;
                 && table != []
                 && table[|table| - 1] == AttemptRecord(req.attempt, FenceKind, o.digest(Fencing(req)), 0, step.result.fenceGeneration.value,
                                                       if step.result.incarnation.Some? then step.result.incarnation.value else 0, NIL)
  {
    hide FindAttempt, LookupFence, FindIncarnation, LiveFence, PreventiveFence;
    RecordFenceFrame(o, s, req.participant, req.boot, req.reason, req.note, true);
  }

  /** A retried fence reports the fence recorded the first time, though not its incarnation. */
  lemma FenceIsExactlyOnce(o: Options, trace: seq<State>, ops: seq<Op>, i: nat, k: nat, req: FenceRequest,
                           newer: seq<AttemptRecord>, retry: FenceRequest)
    requires ViableOptions(o) && IsRun(o, trace, ops) && i < k < |trace| && ops[i] == DoFence(req)
    requires var step := FenceWorker(o, trace[i], req); step.Done? && step.mutated
    requires req.participant in trace[i + 1].participants && req.participant in trace[k].participants
    requires trace[k].participants[req.participant].idempotency ==
             RememberAll(trace[i + 1].participants[req.participant].idempotency, o.limits.maxIdempotencyRecords, newer)
    requires |newer| < o.limits.maxIdempotencyRecords
    requires retry.attempt == req.attempt && retry.participant == req.participant && retry.boot == req.boot
    requires o.digest(Fencing(retry)) == o.digest(Fencing(req)) && retry.expectedEpoch == trace[k].epoch
    ensures var first := FenceWorker(o, trace[i], req).result;
            FenceWorker(o, trace[k], retry) == Done(trace[k], FenceResult(FenceDone, trace[k].epoch, first.fenceGeneration, None), false)
  {
    hide Inv, BootsUnique, Follows, Apply, FindAttempt, ViableOptions, RememberAll, Opened, FenceWorker;
    FenceIsRecorded(o, trace[i], req);
    RunStep(o, trace, ops, i);
    AppliedState(o, trace[i], ops[i], trace[i + 1]);
    var table := trace[i + 1].participants[req.participant].idempotency;
    NewestStillAnswers(o, trace, ops, i + 1, k, req.participant, table[|table| - 1], newer);
    FenceGenerationPositive(o, trace[i], req);
    FenceRetried(o, trace[k], retry, table[|table| - 1]);
  }

  lemma FenceGenerationPositive(o: Options, s: State, req: FenceRequest)
    ensures var step := FenceWorker(o, s, req);
            step.Done? && step.mutated ==>
              step.result.fenceGeneration.Some? && step.result.fenceGeneration.value != 0 && req.attempt != NIL
              && req.participant.text != [] && req.boot != NIL
  {
    hide FindAttempt, LookupFence, FindIncarnation, LiveFence, PreventiveFence;
  }

  lemma GrantIsRecorded(o: Options, s: State, req: GrantRequest, id: Id)
    ensures var step := GrantAuthority(o, s, req, id);
            step.Done? && step.mutated ==>
              && step.result == GrantResult(Granted, s.epoch, Some(id), step.result.generation, false) && step.result.generation.Some?
              && req.attempt != NIL && req.participant.text != [] && req.boot != NIL && req.incarnation != 0
              && 0 < |req.scopes| <= o.limits.maxScopesPerGrant
              && req.participant in step.state.participants
              && var table := step.state.participants[req.participant].idempotency;
                 && table != []
                 && table[|table| - 1] == AttemptRecord(req.attempt, GrantKind, o.digest(Granting(req)), 0, step.result.generation.value, 0, id)
  {
    hide FindAttempt, Evaluate, MayDelegate, ScopesWithin, NewGrant;
  }

  /** A retried grant names the grant created the first time, while its holder is still current. */
  lemma GrantIsExactlyOnce(o: Options, trace: seq<State>, ops: seq<Op>, i: nat, k: nat, req: GrantRequest, id: Id,
                           newer: seq<AttemptRecord>, retry: GrantRequest, id2: Id)
    requires ViableOptions(o) && IsRun(o, trace, ops) && i < k < |trace| && ops[i] == DoGrant(req, id)
    requires var step := GrantAuthority(o, trace[i], req, id); step.Done? && step.mutated
    requires req.participant in trace[i + 1].participants && req.participant in trace[k].participants
    requires trace[k].participants[req.participant].idempotency ==
             RememberAll(trace[i + 1].participants[req.participant].idempotency, o.limits.maxIdempotencyRecords, newer)
    requires |newer| < o.limits.maxIdempotencyRecords
    requires retry == req.(expectedEpoch := trace[k].epoch) && o.digest(Granting(retry)) == o.digest(Granting(req))
    requires var p := trace[k].participants[req.participant];
             Evaluate(trace[k], p, req.boot, req.incarnation).code == Current && ScopesWithin(req.scopes, p.scopes)
    ensures var first := GrantAuthority(o, trace[i], req, id).result;
            GrantAuthority(o, trace[k], retry, id2) == Done(trace[k], first.(epoch := trace[k].epoch, replayed := true), false)
  {
    hide Inv, BootsUnique, Follows, Apply, FindAttempt, ViableOptions, RememberAll, Opened, GrantAuthority, Evaluate, ScopesWithin;
    GrantIsRecorded(o, trace[i], req, id);
    RunStep(o, trace, ops, i);
    AppliedState(o, trace[i], ops[i], trace[i + 1]);
    var table := trace[i + 1].participants[req.participant].idempotency;
    NewestStillAnswers(o, trace, ops, i + 1, k, req.participant, table[|table| - 1], newer);
    GrantRetried(o, trace[k], retry, table[|table| - 1], id2);
  }

  lemma RetireIsRecorded(o: Options, s: State, req: RetireRequest)
    ensures var step := Retire(o, s, req);
            step.Done? && step.mutated ==>
              && step.result.outcome == RetireDone && req.attempt != NIL && req.participant.text != []
              && req.participant in step.state.participants
              && var table := step.state.participants[req.participant].idempotency;
                 && table != []
                 && table[|table| - 1] == AttemptRecord(req.attempt, RetireKind, o.digest(Retiring(req)), 0,
                                                       step.result.incarnationsFenced % (U64_MAX + 1), 0, NIL)
  {
    hide FindAttempt, FenceEach, LiveBoots;
  }

  /** A retried retirement reports the number of incarnations fenced the first time. */
  lemma RetireIsExactlyOnce(o: Options, trace: seq<State>, ops: seq<Op>, i: nat, k: nat, req: RetireRequest,
                            newer: seq<AttemptRecord>, retry: RetireRequest)
    requires ViableOptions(o) && IsRun(o, trace, ops) && i < k < |trace| && ops[i] == DoRetire(req)
    requires var step := Retire(o, trace[i], req); step.Done? && step.mutated
    requires req.participant in trace[i + 1].participants && req.participant in trace[k].participants
    requires trace[k].participants[req.participant].idempotency ==
             RememberAll(trace[i + 1].participants[req.participant].idempotency, o.limits.maxIdempotencyRecords, newer)
    requires |newer| < o.limits.maxIdempotencyRecords
    requires retry.attempt == req.attempt && retry.participant == req.participant && retry.expectedEpoch == trace[k].epoch
    requires o.digest(Retiring(retry)) == o.digest(Retiring(req))
    ensures var first := Retire(o, trace[i], req).result;
            Retire(o, trace[k], retry) ==
              Done(trace[k], RetireResult(RetireDone, trace[k].epoch, first.incarnationsFenced % (U64_MAX + 1)), false)
  {
    hide Inv, BootsUnique, Follows, Apply, FindAttempt, ViableOptions, RememberAll, Opened, Retire;
    RetireIsRecorded(o, trace[i], req);
    RunStep(o, trace, ops, i);
    AppliedState(o, trace[i], ops[i], trace[i + 1]);
    var table := trace[i + 1].participants[req.participant].idempotency;
    NewestStillAnswers(o, trace, ops, i + 1, k, req.participant, table[|table| - 1], newer);
    RetireRetried(o, trace[k], retry, table[|table| - 1]);
  }

  lemma RevokeIsRecorded(o: Options, s: State, req: RevokeRequest)
    ensures var step := RevokeAuthority(o, s, req);
            step.Done? && step.mutated ==>
              && step.result.outcome == RevokeDone && step.result.generation.Some? && req.attempt != NIL && req.grant != NIL
              && step.state.control != []
              && step.state.control[|step.state.control| - 1] ==
                 AttemptRecord(req.attempt, RevokeKind, o.digest(Revoking(req)), 0, step.result.generation.value,
                               step.result.derived % (U64_MAX + 1), NIL)
  {
    hide FindAttempt, IndexOf, RevokeSubtree, NewlyRevoked;
  }

  /** A retried revocation reports the generation and the number of derived grants of the first. */
  lemma RevokeIsExactlyOnce(o: Options, trace: seq<State>, ops: seq<Op>, i: nat, k: nat, req: RevokeRequest,
                            newer: seq<AttemptRecord>, retry: RevokeRequest)
    requires ViableOptions(o) && IsRun(o, trace, ops) && i < k < |trace| && ops[i] == DoRevoke(req)
    requires var step := RevokeAuthority(o, trace[i], req); step.Done? && step.mutated
    requires trace[k].control == RememberAll(trace[i + 1].control, o.limits.maxIdempotencyRecords, newer)
    requires |newer| < o.limits.maxIdempotencyRecords
    requires retry.attempt == req.attempt && retry.grant == req.grant && retry.expectedEpoch == trace[k].epoch
    requires o.digest(Revoking(retry)) == o.digest(Revoking(req))
    ensures var first := RevokeAuthority(o, trace[i], req).result;
            RevokeAuthority(o, trace[k], retry) ==
              Done(trace[k], RevokeResult(RevokeDone, trace[k].epoch, first.generation, first.derived % (U64_MAX + 1)), false)
  {
    hide Inv, BootsUnique, Follows, Apply, FindAttempt, RevokeAuthority, TableOk, ViableOptions, RememberAll, Opened;
    RevokeIsRecorded(o, trace[i], req);
    RunStep(o, trace, ops, i);
    AppliedState(o, trace[i], ops[i], trace[i + 1]);
    NewestControlAnswers(o, trace, ops, i + 1, k, newer);
    RevokeRetried(o, trace[k], retry, trace[i + 1].control[|trace[i + 1].control| - 1]);
  }

  // ---- answers from the record ---------------------------------------------

  lemma NewestControlAnswers(o: Options, trace: seq<State>, ops: seq<Op>, j: nat, k: nat, newer: seq<AttemptRecord>)
    requires ViableOptions(o) && IsRun(o, trace, ops) && j <= k < |trace| && trace[j].control != []
    requires trace[k].control == RememberAll(trace[j].control, o.limits.maxIdempotencyRecords, newer)
    requires |newer| < o.limits.maxIdempotencyRecords
    ensures var record := trace[j].control[|trace[j].control| - 1]; FindAttempt(trace[k].control, record.attempt) == Some(record)
  {
    hide Inv, IsRun, FindAttempt, TableOk;
    RunsKeepInvariant(o, trace, ops, j);
    RunsKeepInvariant(o, trace, ops, k);
    ControlTableOk(o, trace[j]);
    ControlTableOk(o, trace[k]);
    StillFound(trace[j].control, trace[k].control, o.limits.maxIdempotencyRecords, newer);
  }

  lemma FenceRetried(o: Options, s: State, retry: FenceRequest, record: AttemptRecord)
    requires retry.attempt != NIL && retry.participant.text != [] && retry.boot != NIL && retry.expectedEpoch == s.epoch
    requires retry.participant in s.participants
    requires FindAttempt(s.participants[retry.participant].idempotency, retry.attempt) == Some(record)
    requires record.semantic == o.digest(Fencing(retry))
    ensures FenceWorker(o, s, retry) ==
            Done(s, FenceResult(FenceOutcomeOf(record.outcome), s.epoch,
                                if record.auxiliary != 0 then Some(record.auxiliary) else None, None), false)
  {
    hide FindAttempt, RecordFence;
  }

  lemma GrantRetried(o: Options, s: State, retry: GrantRequest, record: AttemptRecord, id: Id)
    requires retry.participant in s.participants && retry.expectedEpoch == s.epoch
    requires retry.attempt != NIL && retry.participant.text != [] && retry.boot != NIL && retry.incarnation != 0
    requires 0 < |retry.scopes| <= o.limits.maxScopesPerGrant
    requires var p := s.participants[retry.participant];
             Evaluate(s, p, retry.boot, retry.incarnation).code == Current && ScopesWithin(retry.scopes, p.scopes)
    requires FindAttempt(s.participants[retry.participant].idempotency, retry.attempt) == Some(record)
    requires record.semantic == o.digest(Granting(retry))
    ensures GrantAuthority(o, s, retry, id) ==
            Done(s, GrantResult(GrantOutcomeOf(record.outcome), s.epoch, Some(record.auxiliaryId), Some(record.auxiliary), true), false)
  {
    hide FindAttempt, Evaluate, ScopesWithin, MayDelegate, AddGrant;
  }

  lemma RetireRetried(o: Options, s: State, retry: RetireRequest, record: AttemptRecord)
    requires retry.attempt != NIL && retry.participant.text != [] && retry.expectedEpoch == s.epoch && retry.participant in s.participants
    requires FindAttempt(s.participants[retry.participant].idempotency, retry.attempt) == Some(record)
    requires record.semantic == o.digest(Retiring(retry))
    ensures Retire(o, s, retry) == Done(s, RetireResult(RetireOutcomeOf(record.outcome), s.epoch, record.auxiliary), false)
  {
    hide FindAttempt, FenceEach;
  }

  lemma RevokeRetried(o: Options, s: State, retry: RevokeRequest, record: AttemptRecord)
    requires retry.attempt != NIL && retry.grant != NIL && retry.expectedEpoch == s.epoch
    requires FindAttempt(s.control, retry.attempt) == Some(record) && record.semantic == o.digest(Revoking(retry))
    ensures RevokeAuthority(o, s, retry) ==
            Done(s, RevokeResult(RevokeOutcomeOf(record.outcome), s.epoch, Some(record.auxiliary), record.auxiliaryHigh), false)
  {
    hide FindAttempt, IndexOf, RevokeTree, NewlyRevoked;
  }

  lemma AdvanceRetried(o: Options, s: State, retry: AdvanceRequest, record: AttemptRecord, t: Id)
    requires retry.attempt != NIL
    requires FindAttempt(s.control, retry.attempt) == Some(record) && record.semantic == o.digest(Advancing(retry))
    ensures var step := AdvanceEpoch(o, s, retry, t);
            && step.Done? && step.state == s && !step.mutated && step.result.outcome == AdvanceOutcomeOf(record.outcome)
            && step.result.epoch == record.auxiliary && step.result.replayed
  {
    hide FindAttempt, MutateEpoch;
  }

  lemma AdvanceIsRecorded(o: Options, s: State, req: AdvanceRequest, t: Id)
    ensures var step := AdvanceEpoch(o, s, req, t);
            step.Done? && step.mutated ==>
              && req.attempt != NIL && step.state.epoch == s.epoch + 1 && step.state.epoch <= U64_MAX
              && step.state.control != []
              && step.state.control[|step.state.control| - 1] ==
                 AttemptRecord(req.attempt, AdvanceKind, o.digest(Advancing(req)), 0, step.state.epoch, 1, NIL)
  {
    hide FindAttempt, InvalidateAll;
  }
}
