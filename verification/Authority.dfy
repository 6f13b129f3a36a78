/** What each authority operation means, on states whose participants are a map.

    These functions are the reference the runtime class is proved against: they scan
    where the runtime consults an index, and name the new state where the runtime
    updates fields one at a time. */
module Authority {
  import opened Basics
  import opened Model
  import opened Forest

  datatype State = State(
    epoch: U64, coordinatorBoot: Id, generation: U64, registrationFloor: U64, fenceFloor: U64,
    participants: map<ParticipantId, Participant>,
    fences: seq<FenceRecord>,
    grants: seq<Grant>,
    transitions: seq<Transition>,
    control: seq<AttemptRecord>)

  // ---- live incarnations -------------------------------------------------

  predicate HoldsExtra(extras: seq<ActiveIncarnation>, boot: Id, sequence: U64) {
    exists i :: 0 <= i < |extras| && extras[i].boot == boot && extras[i].sequence == sequence
  }

  /** The incarnation (boot, sequence) is in the participant's live set. */
  predicate IsLive(p: Participant, boot: Id, sequence: U64) {
    || (p.hasActiveBoot && p.activeBoot == boot && p.activeIncarnation == sequence)
    || HoldsExtra(p.extras, boot, sequence)
  }

  function FindExtra(extras: seq<ActiveIncarnation>, boot: Id): (r: Option<U64>)
    ensures r.Some? ==> HoldsExtra(extras, boot, r.value)
    ensures r.None? ==> forall i :: 0 <= i < |extras| ==> extras[i].boot != boot
  {
    if extras == [] then None
    else if extras[0].boot == boot then Some(extras[0].sequence)
    else
      var rest := FindExtra(extras[1..], boot);
      assert forall i :: 1 <= i < |extras| ==> extras[i] == extras[1..][i - 1];
      rest
  }

  /** The sequence of the first live incarnation bound to this boot. */
  function FindIncarnation(p: Participant, boot: Id): (r: Option<U64>)
    ensures r.Some? ==> IsLive(p, boot, r.value)
  {
    if p.hasActiveBoot && p.activeBoot == boot then Some(p.activeIncarnation) else FindExtra(p.extras, boot)
  }

  function LiveCount(p: Participant): nat {
    (if p.hasActiveBoot then 1 else 0) + |p.extras|
  }

  predicate HasCurrent(p: Participant) {
    p.hasActiveBoot || p.extras != []
  }

  /** Boots of the live set, the active one first. */
  function LiveBoots(p: Participant): (r: seq<Id>)
    ensures |r| == LiveCount(p)
  {
    (if p.hasActiveBoot then [p.activeBoot] else []) + seq(|p.extras|, i requires 0 <= i < |p.extras| => p.extras[i].boot)
  }

  // ---- fences ------------------------------------------------------------

  predicate Recorded(fences: seq<FenceRecord>, id: ParticipantId, boot: Id) {
    exists i :: 0 <= i < |fences| && fences[i].boot == boot && fences[i].participant == id
  }

  /** The oldest retained record that fences this boot of this participant. */
  function FindRecord(fences: seq<FenceRecord>, id: ParticipantId, boot: Id): (r: Option<FenceRecord>)
    ensures r.Some? <==> Recorded(fences, id, boot)
    ensures r.Some? ==> r.value in fences && r.value.boot == boot && r.value.participant == id
  {
    if fences == [] then None
    else if fences[0].boot == boot && fences[0].participant == id then Some(fences[0])
    else
      var rest := FindRecord(fences[1..], id, boot);
      assert forall i :: 1 <= i < |fences| ==> fences[i] == fences[1..][i - 1];
      rest
  }

  datatype FenceLookup = FenceLookup(fenced: bool, record: Option<FenceRecord>)

  function LookupFence(s: State, id: ParticipantId, boot: Id): FenceLookup {
    var record := FindRecord(s.fences, id, boot);
    if record.Some? then FenceLookup(true, record)
    else FenceLookup(id in s.participants && boot in s.participants[id].fencedBoots, None)
  }

  // ---- currentness -------------------------------------------------------

  datatype ValidationCode =
    | Current | StaleEpoch | StaleWorkerBoot | UnknownParticipant | UnauthorizedScope
    | RevalidationRequired | Malformed | Retired | UnknownGrant | Revoked

  datatype Currentness =
    | IsCurrent | NeedsRevalidation | IsFenced | IsStaleEpoch | IsRetired | IsUnknown | IsRevoked

  datatype Evaluation = Evaluation(
    code: ValidationCode, currentness: Currentness, incarnation: Option<U64>,
    supersededBy: Option<Id>, replacedByEpoch: Option<U64>)

  function FirstLiveBoot(p: Participant): Option<Id> {
    if p.hasActiveBoot then Some(p.activeBoot)
    else if p.extras != [] then Some(p.extras[0].boot)
    else None
  }

  /** Whether `boot`, claiming sequence `claimed` (zero claims nothing), is current. */
  function Evaluate(s: State, p: Participant, boot: Id, claimed: U64): (e: Evaluation)
    ensures e.code == Current ==>
              e.incarnation.Some? && IsLive(p, boot, e.incarnation.value)
              && (claimed != 0 ==> e.incarnation.value == claimed)
    ensures e.code == Current <==>
              FindIncarnation(p, boot).Some? && (claimed == 0 || FindIncarnation(p, boot).value == claimed)
  {
    var current := FindIncarnation(p, boot);
    if current.Some? then
      if claimed != 0 && claimed != current.value
      then Evaluation(StaleWorkerBoot, IsFenced, current, None, None)
      else Evaluation(Current, IsCurrent, current, None, None)
    else
      var fence := LookupFence(s, p.id, boot);
      if fence.fenced then
        var incarnation :=
          if fence.record.Some? && fence.record.value.incarnation != 0 then Some(fence.record.value.incarnation) else None;
        var epoch :=
          if fence.record.Some? && fence.record.value.epoch != 0 then Some(fence.record.value.epoch) else None;
        Evaluation(StaleWorkerBoot, IsFenced, incarnation, FirstLiveBoot(p), epoch)
      else if claimed != 0 && claimed <= p.incarnationFloor then
        Evaluation(StaleWorkerBoot, IsFenced, None, None, None)
      else if !HasCurrent(p) then
        if p.revalidationRequired
        then Evaluation(RevalidationRequired, NeedsRevalidation, None, None, None)
        else Evaluation(StaleWorkerBoot, IsFenced, None, None, None)
      else
        Evaluation(StaleWorkerBoot, IsFenced, None, FirstLiveBoot(p), None)
  }

  // ---- attempt tables ----------------------------------------------------

  function FindAttempt(table: seq<AttemptRecord>, attempt: Id): (r: Option<AttemptRecord>)
    ensures r.Some? ==> r.value in table && r.value.attempt == attempt
    ensures r.None? <==> forall i :: 0 <= i < |table| ==> table[i].attempt != attempt
  {
    if table == [] then None
    else if table[0].attempt == attempt then Some(table[0])
    else
      var rest := FindAttempt(table[1..], attempt);
      assert forall i :: 1 <= i < |table| ==> table[i] == table[1..][i - 1];
      rest
  }

  /** Appends to a bounded history, dropping the oldest entry when it is full. */
  function Remember<T>(table: seq<T>, bound: nat, record: T): seq<T> {
    (if |table| >= bound && |table| > 0 then table[1..] else table) + [record]
  }

  // ---- counts over the participant map -----------------------------------

  /** Sum of f over the values of a map. */
  ghost function Total(m: map<ParticipantId, Participant>, f: Participant -> nat): nat
    decreases |m|
  {
    if m == map[] then 0
    else
      var k :| k in m;
      assert |m - {k}| < |m| by { CardinalityAfterRemoval(m, k); }
      f(m[k]) + Total(m - {k}, f)
  }

  lemma CardinalityAfterRemoval<K, V>(m: map<K, V>, k: K)
    requires k in m
    ensures |m - {k}| == |m| - 1
  {
    assert (m - {k}).Keys == m.Keys - {k};
    assert |m.Keys - {k}| == |m.Keys| - 1;
  }

  lemma {:induction false} TotalPick(m: map<ParticipantId, Participant>, f: Participant -> nat, k: ParticipantId)
    requires k in m
    ensures Total(m, f) == f(m[k]) + Total(m - {k}, f)
    decreases |m|
  {
    CardinalityAfterRemoval(m, k);
    var c :| c in m && Total(m, f) == f(m[c]) + Total(m - {c}, f);
    if c != k {
      CardinalityAfterRemoval(m, c);
      TotalPick(m - {c}, f, k);
      TotalPick(m - {k}, f, c);
      assert m - {c} - {k} == m - {k} - {c};
    }
  }

  lemma TotalUpdate(m: map<ParticipantId, Participant>, f: Participant -> nat, k: ParticipantId, v: Participant)
    ensures Total(m[k := v], f) == f(v) + Total(m, f) - (if k in m then f(m[k]) else 0)
  {
    TotalPick(m[k := v], f, k);
    assert m[k := v] - {k} == m - {k};
    if k in m {
      TotalPick(m, f, k);
    } else {
      assert m - {k} == m;
    }
  }

  ghost function Workers(s: State): nat {
    Total(s.participants, LiveCount)
  }

  // ---- step results ------------------------------------------------------

  /** An operation either throws, leaving nothing behind, or yields the state to be
      saved, its answer, and whether there is anything to save. */
  datatype Step<R> = Threw | Done(state: State, result: R, mutated: bool)

  // ---- fencing -----------------------------------------------------------

  datatype FenceOutcome =
    | FenceDone | AlreadyFenced | FenceStaleEpoch | FenceUnknownParticipant | FenceMalformed
    | FenceConflict | FenceLimit | NoFenceRequired

  datatype FenceResult = FenceResult(
    outcome: FenceOutcome, epoch: U64, fenceGeneration: Option<U64>, incarnation: Option<U64>)

  function Without(extras: seq<ActiveIncarnation>, boot: Id): (r: seq<ActiveIncarnation>)
    ensures |r| <= |extras|
    ensures forall i :: 0 <= i < |r| ==> r[i] in extras && r[i].boot != boot
    ensures forall i :: 0 <= i < |extras| && extras[i].boot != boot ==> extras[i] in r
  {
    if extras == [] then []
    else
      var rest := Without(extras[1..], boot);
      assert forall i :: 1 <= i < |extras| ==> extras[i] == extras[1..][i - 1];
      if extras[0].boot == boot then rest else [extras[0]] + rest
  }

  /** Takes one boot out of the live set, promoting the oldest extra incarnation when
      the active one is removed. */
  function RemoveLive(p: Participant, boot: Id): Participant {
    if p.hasActiveBoot && p.activeBoot == boot then
      if p.extras != [] then
        p.(activeBoot := p.extras[0].boot, activeIncarnation := p.extras[0].sequence, extras := p.extras[1..])
      else
        p.(hasActiveBoot := false, activeBoot := NIL, activeIncarnation := 0)
    else
      p.(extras := Without(p.extras, boot))
  }

  function Max(a: U64, b: U64): U64 {
    if a > b then a else b
  }

  /** The participant once its live incarnation (boot, sequence) has been fenced. */
  function FencedParticipant(o: Options, p: Participant, boot: Id, sequence: U64, generation: U64): Participant {
    RemoveLive(p, boot).(
      incarnationFloor := Max(p.incarnationFloor, sequence),
      fenceGeneration := generation,
      fencedBoots := Remember(p.fencedBoots, o.limits.maxFencedBoots, boot))
  }

  /** A fence, given what looking the boot up answered. */
  ghost function RecordFenceGiven(o: Options, s: State, lookup: FenceLookup, id: ParticipantId, boot: Id, reason: FenceReason,
                                  note: Bytes, defensive: bool): Step<FenceResult>
  {
    if id !in s.participants then
      Done(s, FenceResult(FenceUnknownParticipant, s.epoch, None, None), false)
    else
      var p := s.participants[id];
      if lookup.fenced then
        var incarnation := if lookup.record.Some? then Some(lookup.record.value.incarnation) else None;
        Done(s, FenceResult(AlreadyFenced, s.epoch, Some(p.fenceGeneration), incarnation), false)
      else
        var sequence := FindIncarnation(p, boot);
        if sequence.None? && !defensive then
          Done(s, FenceResult(AlreadyFenced, s.epoch, Some(p.fenceGeneration), None), false)
        else if sequence.None? && |s.fences| >= o.limits.maxRecentFences then
          Done(s, FenceResult(FenceLimit, s.epoch, None, None), false)
        else if s.fenceFloor == U64_MAX || s.generation == U64_MAX then
          Threw
        else if sequence.None? then
          Done(PreventiveFence(s, id, boot, reason, note),
               FenceResult(FenceDone, s.epoch, Some(s.fenceFloor + 1), None), true)
        else
          Done(LiveFence(o, s, id, boot, sequence.value, reason, note),
               FenceResult(FenceDone, s.epoch, Some(s.fenceFloor + 1), sequence), true)
  }

  ghost function RecordFence(o: Options, s: State, id: ParticipantId, boot: Id, reason: FenceReason,
                             note: Bytes, defensive: bool): Step<FenceResult>
  {
    RecordFenceGiven(o, s, LookupFence(s, id, boot), id, boot, reason, note, defensive)
  }

  /** A fence for a boot that was never an incarnation: a record and a generation, no more. */
  function PreventiveFence(s: State, id: ParticipantId, boot: Id, reason: FenceReason, note: Bytes): State
    requires id in s.participants && s.fenceFloor < U64_MAX && s.generation < U64_MAX
  {
    var g := s.fenceFloor + 1;
    s.(fenceFloor := g, generation := s.generation + 1,
       participants := s.participants[id := s.participants[id].(fenceGeneration := g)],
       fences := s.fences + [FenceRecord(boot, id, reason, g, s.epoch, 0, note)])
  }

  function LiveFence(o: Options, s: State, id: ParticipantId, boot: Id, sequence: U64, reason: FenceReason, note: Bytes): State
    requires id in s.participants && s.fenceFloor < U64_MAX && s.generation < U64_MAX
  {
    var g := s.fenceFloor + 1;
    s.(fenceFloor := g, generation := s.generation + 1,
       participants := s.participants[id := FencedParticipant(o, s.participants[id], boot, sequence, g)],
       fences := Remember(s.fences, o.limits.maxRecentFences, FenceRecord(boot, id, reason, g, s.epoch, sequence, note)))
  }

  function FenceCode(outcome: FenceOutcome): U16 {
    match outcome
    case FenceDone => 0
    case AlreadyFenced => 1
    case FenceStaleEpoch => 2
    case FenceUnknownParticipant => 3
    case FenceMalformed => 4
    case FenceConflict => 5
    case FenceLimit => 6
    case NoFenceRequired => 7
  }

  /** The outcome a recorded code denotes. Only codes of outcomes are ever recorded. */
  function FenceOutcomeOf(code: U16): FenceOutcome {
    if code == 0 then FenceDone else if code == 1 then AlreadyFenced else if code == 2 then FenceStaleEpoch
    else if code == 3 then FenceUnknownParticipant else if code == 4 then FenceMalformed
    else if code == 5 then FenceConflict else if code == 6 then FenceLimit else NoFenceRequired
  }

  /** Stores an attempt record in the participant's bounded table. */
  function RememberFor(o: Options, s: State, id: ParticipantId, record: AttemptRecord): State
    requires id in s.participants
  {
    var p := s.participants[id];
    s.(participants := s.participants[id := p.(idempotency := Remember(p.idempotency, o.limits.maxIdempotencyRecords, record))])
  }

  /** Operator fence request. */
  ghost function FenceWorker(o: Options, s: State, req: FenceRequest): Step<FenceResult> {
    var digest := o.digest(Fencing(req));
    if req.attempt == NIL || req.participant.text == [] || req.boot == NIL then
      Done(s, FenceResult(FenceMalformed, s.epoch, None, None), false)
    else if req.expectedEpoch != s.epoch then
      Done(s, FenceResult(FenceStaleEpoch, s.epoch, None, None), false)
    else if req.participant !in s.participants then
      Done(s, FenceResult(FenceUnknownParticipant, s.epoch, None, None), false)
    else
      var previous := FindAttempt(s.participants[req.participant].idempotency, req.attempt);
      if previous.Some? then
        if previous.value.semantic != digest then
          Done(s, FenceResult(FenceConflict, s.epoch, None, None), false)
        else
          Done(s, FenceResult(FenceOutcomeOf(previous.value.outcome), s.epoch,
                              if previous.value.auxiliary != 0 then Some(previous.value.auxiliary) else None, None), false)
      else
        match RecordFence(o, s, req.participant, req.boot, req.reason, req.note, true)
        case Threw => Threw
        case Done(s1, result, mutated) =>
          if !mutated then Done(s1, result, false)
          else
            var record := AttemptRecord(req.attempt, FenceKind, digest, FenceCode(result.outcome),
                                        if result.fenceGeneration.Some? then result.fenceGeneration.value else 0,
                                        if result.incarnation.Some? then result.incarnation.value else 0, NIL);
            if req.participant in s1.participants
            then Done(RememberFor(o, s1, req.participant, record), result, true)
            else Done(s1, result, true)
  }

  datatype ClosureReason = PeerDisconnect | ProtocolViolation | ServerShutdown | ExplicitClose | RegistrationReplaced

  function FenceReasonFor(reason: ClosureReason): FenceReason {
    match reason
    case ProtocolViolation => SessionProtocolViolation
    case ServerShutdown => ShutdownFence
    case RegistrationReplaced => AuthorityReplaced
    case ExplicitClose => ProcessLoss
    case PeerDisconnect => ProcessLoss
  }

  /** Loss of the session bound to (id, boot): that incarnation, if still live, is fenced. */
  ghost function LoseSession(o: Options, s: State, id: ParticipantId, boot: Id, reason: ClosureReason): Step<FenceResult> {
    if !o.fenceOnSessionLoss || id !in s.participants || FindIncarnation(s.participants[id], boot).None? then
      Done(s, FenceResult(NoFenceRequired, s.epoch, None, None), false)
    else
      RecordFence(o, s, id, boot, FenceReasonFor(reason), [], false)
  }

  // ---- registration ------------------------------------------------------

  datatype RegistrationOutcome =
    | Registered | Idempotent | RegisterStaleEpoch | RegisterStaleBoot | AlreadyActive | ConflictingIncarnation
    | RegisterUnauthorized | RegisterMalformed | RegisterLimit | RetiredParticipant | ConflictingAttempt
    | RegisterRevalidation

  datatype RegistrationResult = RegistrationResult(
    outcome: RegistrationOutcome, epoch: U64, coordinatorBoot: Id,
    registrationGeneration: Option<U64>, incarnation: Option<U64>, replayed: bool)

  function RegistrationOutcomeOf(code: U16): RegistrationOutcome {
    if code == 0 then Registered else if code == 1 then Idempotent else if code == 2 then RegisterStaleEpoch
    else if code == 3 then RegisterStaleBoot else if code == 4 then AlreadyActive
    else if code == 5 then ConflictingIncarnation else if code == 6 then RegisterUnauthorized
    else if code == 7 then RegisterMalformed else if code == 8 then RegisterLimit
    else if code == 9 then RetiredParticipant else if code == 10 then ConflictingAttempt
    else RegisterRevalidation
  }

  function Refusal(s: State, outcome: RegistrationOutcome): RegistrationResult {
    RegistrationResult(outcome, s.epoch, s.coordinatorBoot, None, None, false)
  }

  /** What the checks that precede any mutation decide. */
  datatype Verdict = Refuse(result: RegistrationResult) | Admit | Replace(incumbent: Id)

  predicate RegistrableScopes(o: Options, scopes: seq<Scope>) {
    forall i :: 0 <= i < |scopes| ==> o.registrable(scopes[i].kind)
  }

  function ScreenStructure(o: Options, s: State, req: RegisterRequest): Verdict {
    if req.attempt == NIL || req.participant.text == [] || req.boot == NIL
       || !IsBoundedText(req.provenance, o.limits.maxStringSize) || req.scopes == [] then
      Refuse(Refusal(s, RegisterMalformed))
    else if |req.scopes| > o.limits.maxScopesPerGrant then
      Refuse(Refusal(s, RegisterLimit))
    else if (req.policy == MultiIncarnation && !o.allowMulti) || !RegistrableScopes(o, req.scopes) then
      Refuse(Refusal(s, RegisterUnauthorized))
    else if req.expectedEpoch != s.epoch then
      Refuse(Refusal(s, RegisterStaleEpoch))
    else
      Admit
  }

  function ScreenKnown(o: Options, s: State, req: RegisterRequest, p: Participant): Verdict {
    ScreenGiven(o, s, LookupFence(s, req.participant, req.boot).fenced, req, p)
  }

  /** The checks on a known participant, given whether the boot was found fenced. */
  function ScreenGiven(o: Options, s: State, fenced: bool, req: RegisterRequest, p: Participant): Verdict {
    var previous := FindAttempt(p.idempotency, req.attempt);
    if p.retired then
      Refuse(Refusal(s, RetiredParticipant))
    else if fenced then
      Refuse(Refusal(s, RegisterStaleBoot))
    else if previous.Some? then
      if previous.value.semantic != o.digest(Registering(req)) then
        Refuse(Refusal(s, ConflictingAttempt))
      else
        Refuse(RegistrationResult(
                 RegistrationOutcomeOf(previous.value.outcome), s.epoch, s.coordinatorBoot,
                 Some(previous.value.auxiliary),
                 if previous.value.auxiliaryHigh != 0 then Some(previous.value.auxiliaryHigh) else None, true))
    else if req.expectedGeneration.Some? && req.expectedGeneration.value != p.registrationGeneration then
      Refuse(Refusal(s, RegisterRevalidation))
    else if p.policy != req.policy then
      Refuse(Refusal(s, ConflictingIncarnation))
    else if FindIncarnation(p, req.boot).Some? then
      Refuse(RegistrationResult(AlreadyActive, s.epoch, s.coordinatorBoot, Some(p.registrationGeneration),
                                FindIncarnation(p, req.boot), false))
    else if HasCurrent(p) && p.policy == SingleIncarnation then
      if o.replacement == RequireExplicitFence then Refuse(Refusal(s, ConflictingIncarnation))
      else Replace(FirstLiveBoot(p).value)
    else
      Admit
  }

  function Screen(o: Options, s: State, req: RegisterRequest): Verdict {
    var structure := ScreenStructure(o, s, req);
    if structure.Refuse? then structure
    else if req.participant in s.participants then ScreenKnown(o, s, req, s.participants[req.participant])
    else if |s.participants| >= o.limits.maxParticipants then Refuse(Refusal(s, RegisterLimit))
    else Admit
  }

  function FreshParticipant(id: ParticipantId, policy: IncarnationPolicy): Participant {
    Participant(id, 0, 0, 0, policy, false, false, false, NIL, 0, 1, [], [], 0, 0, [], [])
  }

  function RegistrationRecord(o: Options, req: RegisterRequest, generation: U64, sequence: U64): AttemptRecord {
    AttemptRecord(req.attempt, RegisterKind, o.digest(Registering(req)), 0, generation, sequence, NIL)
  }

  /** The participant once the request's boot has been issued the next sequence. */
  function Enrolled(o: Options, p: Participant, req: RegisterRequest, generation: U64): Participant
    requires p.nextIncarnation < U64_MAX
  {
    var q := p.(
      registrationGeneration := generation,
      nextIncarnation := p.nextIncarnation + 1,
      policy := req.policy,
      scopes := req.scopes,
      revalidationRequired := false,
      retired := false,
      acceptedRegistrations := (p.acceptedRegistrations + 1) % (U64_MAX + 1),
      idempotency := Remember(p.idempotency, o.limits.maxIdempotencyRecords,
                              RegistrationRecord(o, req, generation, p.nextIncarnation)));
    if !p.hasActiveBoot then
      q.(hasActiveBoot := true, activeBoot := req.boot, activeIncarnation := p.nextIncarnation)
    else
      q.(extras := p.extras + [ActiveIncarnation(req.boot, p.nextIncarnation, generation)])
  }

  function ParticipantOrFresh(s: State, req: RegisterRequest): Participant {
    if req.participant in s.participants then s.participants[req.participant]
    else FreshParticipant(req.participant, req.policy)
  }

  /** The mutation of an accepted registration. A batch leaves the generation alone. */
  function Enrol(o: Options, s: State, req: RegisterRequest, commit: bool): State
    requires ParticipantOrFresh(s, req).nextIncarnation < U64_MAX && s.registrationFloor < U64_MAX
    requires commit ==> s.generation < U64_MAX
  {
    var g := s.registrationFloor + 1;
    s.(registrationFloor := g,
       generation := if commit then s.generation + 1 else s.generation,
       participants := s.participants[req.participant := Enrolled(o, ParticipantOrFresh(s, req), req, g)])
  }

  ghost function EnrolWithinLimits(o: Options, s: State, req: RegisterRequest, commit: bool, mutated: bool): Step<RegistrationResult> {
    var p := ParticipantOrFresh(s, req);
    if Workers(s) >= o.limits.maxActiveWorkers then
      Done(s, Refusal(s, RegisterLimit), mutated)
    else if s.registrationFloor == U64_MAX || p.nextIncarnation == U64_MAX || (commit && s.generation == U64_MAX) then
      Threw
    else
      Done(Enrol(o, s, req, commit),
           RegistrationResult(Registered, s.epoch, s.coordinatorBoot, Some(s.registrationFloor + 1), Some(p.nextIncarnation), false),
           true)
  }

  ghost function Register(o: Options, s: State, req: RegisterRequest, commit: bool): Step<RegistrationResult> {
    match Screen(o, s, req)
    case Refuse(result) => Done(s, result, false)
    case Admit => EnrolWithinLimits(o, s, req, commit, false)
    case Replace(incumbent) =>
      match RecordFence(o, s, req.participant, incumbent, Reincarnation, [], false)
      case Threw => Threw
      case Done(s1, fence, mutated) =>
        if fence.outcome != FenceDone && fence.outcome != AlreadyFenced
        then Done(s1, Refusal(s1, ConflictingIncarnation), mutated)
        else EnrolWithinLimits(o, s1, req, commit, mutated)
  }

  // ---- retirement --------------------------------------------------------

  datatype RetireOutcome = RetireDone | AlreadyRetired | RetireStaleEpoch | RetireUnknownParticipant | RetireMalformed | RetireConflict

  datatype RetireResult = RetireResult(outcome: RetireOutcome, epoch: U64, incarnationsFenced: nat)

  function RetireOutcomeOf(code: U16): RetireOutcome {
    if code == 0 then RetireDone else if code == 1 then AlreadyRetired else if code == 2 then RetireStaleEpoch
    else if code == 3 then RetireUnknownParticipant else if code == 4 then RetireMalformed else RetireConflict
  }

  /** Fences the listed boots one after the other; the result counts those reported fenced. */
  ghost function FenceEach(o: Options, s: State, id: ParticipantId, boots: seq<Id>, note: Bytes): Step<nat> {
    if boots == [] then Done(s, 0, false)
    else
      match FenceEach(o, s, id, boots[..|boots| - 1], note)
      case Threw => Threw
      case Done(s1, count, mutated) =>
        match RecordFence(o, s1, id, boots[|boots| - 1], AdministrativeRevoke, note, false)
        case Threw => Threw
        case Done(s2, fence, more) =>
          Done(s2, if fence.outcome == FenceDone || fence.outcome == AlreadyFenced then count + 1 else count, mutated || more)
  }

  /** The participant with its allocator closed: every sequence it could have issued is at
      or below its floor. */
  function RetiredParticipantRecord(o: Options, p: Participant, record: AttemptRecord): Participant {
    p.(incarnationFloor := if p.nextIncarnation != 0 then Max(p.incarnationFloor, p.nextIncarnation - 1) else p.incarnationFloor,
       retired := true,
       revalidationRequired := false,
       idempotency := Remember(p.idempotency, o.limits.maxIdempotencyRecords, record))
  }

  function CloseAllocator(o: Options, s: State, id: ParticipantId, record: AttemptRecord): State
    requires id in s.participants && s.generation < U64_MAX
  {
    s.(generation := s.generation + 1,
       participants := s.participants[id := RetiredParticipantRecord(o, s.participants[id], record)])
  }

  function LiveBootsOf(s: State, id: ParticipantId): seq<Id> {
    if id in s.participants then LiveBoots(s.participants[id]) else []
  }

  ghost function Retire(o: Options, s: State, req: RetireRequest): Step<RetireResult> {
    RetireGiven(o, s, req, FenceEach(o, s, req.participant, LiveBootsOf(s, req.participant), req.note))
  }

  /** A retirement, given what fencing the live boots came to. */
  ghost function RetireGiven(o: Options, s: State, req: RetireRequest, fenced: Step<nat>): Step<RetireResult> {
    var digest := o.digest(Retiring(req));
    if req.attempt == NIL || req.participant.text == [] then
      Done(s, RetireResult(RetireMalformed, s.epoch, 0), false)
    else if req.expectedEpoch != s.epoch then
      Done(s, RetireResult(RetireStaleEpoch, s.epoch, 0), false)
    else if req.participant !in s.participants then
      Done(s, RetireResult(RetireUnknownParticipant, s.epoch, 0), false)
    else
      var p := s.participants[req.participant];
      var previous := FindAttempt(p.idempotency, req.attempt);
      if previous.Some? then
        if previous.value.semantic != digest then Done(s, RetireResult(RetireConflict, s.epoch, 0), false)
        else Done(s, RetireResult(RetireOutcomeOf(previous.value.outcome), s.epoch, previous.value.auxiliary), false)
      else if p.retired then
        Done(s, RetireResult(RetireOutcome.AlreadyRetired, s.epoch, 0), false)
      else
        match fenced
        case Threw => Threw
        case Done(s1, count, _) =>
          if s1.generation == U64_MAX || req.participant !in s1.participants then Threw
          else
            var record := AttemptRecord(req.attempt, RetireKind, digest, 0, count % (U64_MAX + 1), 0, NIL);
            Done(CloseAllocator(o, s1, req.participant, record), RetireResult(RetireDone, s.epoch, count), true)
  }

  // ---- grants ------------------------------------------------------------

  datatype GrantOutcome =
    | Granted | GrantStaleEpoch | GrantStaleBoot | GrantUnknownParticipant | GrantUnauthorized
    | DelegationRejected | GrantMalformed | GrantLimit | GrantConflict

  datatype GrantResult = GrantResult(
    outcome: GrantOutcome, epoch: U64, grant: Option<Id>, generation: Option<U64>, replayed: bool)

  function GrantOutcomeOf(code: U16): GrantOutcome {
    if code == 0 then Granted else if code == 1 then GrantStaleEpoch else if code == 2 then GrantStaleBoot
    else if code == 3 then GrantUnknownParticipant else if code == 4 then GrantUnauthorized
    else if code == 5 then DelegationRejected else if code == 6 then GrantMalformed
    else if code == 7 then GrantLimit else GrantConflict
  }

  function GrantRefusal(s: State, outcome: GrantOutcome): GrantResult {
    GrantResult(outcome, s.epoch, None, None, false)
  }

  /** The named parent may delegate these scopes: it is live, in the current epoch, held by a
      current incarnation, and covers every one of them. */
  predicate MayDelegate(s: State, parent: Id, scopes: seq<Scope>) {
    var j := IndexOf(s.grants, parent);
    && j.Some?
    && var g := s.grants[j.value];
    && !g.revoked && g.epoch == s.epoch
    && g.participant in s.participants
    && Evaluate(s, s.participants[g.participant], g.boot, g.incarnation).code == Current
    && ScopesWithin(scopes, g.scopes)
  }

  function NewGrant(s: State, req: GrantRequest, id: Id): Grant
    requires s.generation < U64_MAX
  {
    var j := if req.parent.Some? then IndexOf(s.grants, req.parent.value) else None;
    Grant(id, s.epoch, req.participant, req.boot, req.incarnation, req.scopes, s.generation + 1, req.parent,
          if j.Some? then Some(s.grants[j.value].boot) else None, false, 0, req.provenance)
  }

  function AddGrant(o: Options, s: State, req: GrantRequest, id: Id): State
    requires req.participant in s.participants && s.generation < U64_MAX
  {
    var record := AttemptRecord(req.attempt, GrantKind, o.digest(Granting(req)), 0, s.generation + 1, 0, id);
    RememberFor(o, s.(generation := s.generation + 1, grants := s.grants + [NewGrant(s, req, id)]), req.participant, record)
  }

  /** `id` is the identifier generated for the grant should one be created. */
  function GrantAuthority(o: Options, s: State, req: GrantRequest, id: Id): Step<GrantResult> {
    if req.attempt == NIL || req.participant.text == [] || req.boot == NIL || req.incarnation == 0 || req.scopes == [] then
      Done(s, GrantRefusal(s, GrantMalformed), false)
    else if |req.scopes| > o.limits.maxScopesPerGrant then
      Done(s, GrantRefusal(s, GrantLimit), false)
    else if req.expectedEpoch != s.epoch then
      Done(s, GrantRefusal(s, GrantStaleEpoch), false)
    else if req.participant !in s.participants then
      Done(s, GrantRefusal(s, GrantUnknownParticipant), false)
    else
      var p := s.participants[req.participant];
      var previous := FindAttempt(p.idempotency, req.attempt);
      if Evaluate(s, p, req.boot, req.incarnation).code != Current then
        Done(s, GrantRefusal(s, GrantStaleBoot), false)
      else if !ScopesWithin(req.scopes, p.scopes) then
        Done(s, GrantRefusal(s, GrantUnauthorized), false)
      else if previous.Some? then
        if previous.value.semantic != o.digest(Granting(req)) then Done(s, GrantRefusal(s, GrantConflict), false)
        else Done(s, GrantResult(GrantOutcomeOf(previous.value.outcome), s.epoch, Some(previous.value.auxiliaryId),
                                 Some(previous.value.auxiliary), true), false)
      else if req.parent.Some? && !MayDelegate(s, req.parent.value, req.scopes) then
        Done(s, GrantRefusal(s, DelegationRejected), false)
      else if |s.grants| >= o.limits.maxGrants then
        Done(s, GrantRefusal(s, GrantLimit), false)
      else if s.generation == U64_MAX then
        Threw
      else
        Done(AddGrant(o, s, req, id), GrantResult(Granted, s.epoch, Some(id), Some(s.generation + 1), false), true)
  }

  // ---- revocation --------------------------------------------------------

  datatype RevokeOutcome = RevokeDone | AlreadyRevoked | RevokeStaleEpoch | RevokeUnknownGrant | RevokeMalformed | RevokeConflict

  datatype RevokeResult = RevokeResult(outcome: RevokeOutcome, epoch: U64, generation: Option<U64>, derived: nat)

  function RevokeOutcomeOf(code: U16): RevokeOutcome {
    if code == 0 then RevokeDone else if code == 1 then AlreadyRevoked else if code == 2 then RevokeStaleEpoch
    else if code == 3 then RevokeUnknownGrant else if code == 4 then RevokeMalformed else RevokeConflict
  }

  ghost function RevokeTree(o: Options, s: State, req: RevokeRequest, t: nat): State
    requires t < |s.grants| && s.generation < U64_MAX
  {
    var swept := RevokeSubtree(s.grants, t, s.epoch);
    var derived := |NewlyRevoked(s.grants, t)| - 1;
    var record := AttemptRecord(req.attempt, RevokeKind, o.digest(Revoking(req)), 0, s.generation + 1,
                                (if derived > 0 then derived else 0) % (U64_MAX + 1), NIL);
    s.(generation := s.generation + 1,
       grants := swept[t := swept[t].(generation := s.generation + 1)],
       control := Remember(s.control, o.limits.maxIdempotencyRecords, record))
  }

  ghost function RevokeAuthority(o: Options, s: State, req: RevokeRequest): Step<RevokeResult> {
    var previous := FindAttempt(s.control, req.attempt);
    var t := IndexOf(s.grants, req.grant);
    if req.attempt == NIL || req.grant == NIL then
      Done(s, RevokeResult(RevokeMalformed, s.epoch, None, 0), false)
    else if req.expectedEpoch != s.epoch then
      Done(s, RevokeResult(RevokeStaleEpoch, s.epoch, None, 0), false)
    else if previous.Some? then
      if previous.value.semantic != o.digest(Revoking(req)) then Done(s, RevokeResult(RevokeConflict, s.epoch, None, 0), false)
      else Done(s, RevokeResult(RevokeOutcomeOf(previous.value.outcome), s.epoch, Some(previous.value.auxiliary),
                                previous.value.auxiliaryHigh), false)
    else if t.None? then
      Done(s, RevokeResult(RevokeUnknownGrant, s.epoch, None, 0), false)
    else if s.grants[t.value].revoked then
      Done(s, RevokeResult(AlreadyRevoked, s.epoch, Some(s.grants[t.value].generation), 0), false)
    else if s.generation == U64_MAX then
      Threw
    else
      var derived := |NewlyRevoked(s.grants, t.value)| - 1;
      Done(RevokeTree(o, s, req, t.value),
           RevokeResult(RevokeDone, s.epoch, Some(s.generation + 1), if derived > 0 then derived else 0), true)
  }

  // ---- epochs ------------------------------------------------------------

  /** What an epoch change leaves of a participant: its identity, but no live incarnation. */
  function Invalidated(p: Participant): Participant {
    p.(revalidationRequired := p.revalidationRequired || HasCurrent(p),
       hasActiveBoot := false, activeBoot := NIL, activeIncarnation := 0, extras := [])
  }

  function InvalidateAll(m: map<ParticipantId, Participant>): map<ParticipantId, Participant> {
    map id | id in m :: Invalidated(m[id])
  }

  function MutateEpoch(o: Options, s: State, boot: Id, cause: TransitionCause, invalidate: bool, transition: Id): State
    requires s.epoch < U64_MAX && s.generation < U64_MAX
  {
    s.(epoch := s.epoch + 1,
       coordinatorBoot := boot,
       generation := s.generation + 1,
       participants := if invalidate then InvalidateAll(s.participants) else s.participants,
       transitions := Remember(s.transitions, o.limits.maxTransitionHistory,
                               Transition(transition, s.epoch, s.epoch + 1, cause, boot, s.generation + 1, o.provenance)))
  }

  datatype AdvanceOutcome = Advanced | AdvanceStaleEpoch | EpochExhausted | AdvanceMalformed | AdvanceConflict

  datatype AdvanceResult = AdvanceResult(
    outcome: AdvanceOutcome, epoch: U64, coordinatorBoot: Id, transition: Option<Id>, replayed: bool)

  function AdvanceOutcomeOf(code: U16): AdvanceOutcome {
    if code == 0 then Advanced else if code == 1 then AdvanceStaleEpoch else if code == 2 then EpochExhausted
    else if code == 3 then AdvanceMalformed else AdvanceConflict
  }

  function LastTransition(s: State): Option<Id> {
    if s.transitions == [] then None else Some(s.transitions[|s.transitions| - 1].id)
  }

  /** Explicit advancement. Replay is classified before the expected epoch is compared. */
  function AdvanceEpoch(o: Options, s: State, req: AdvanceRequest, transition: Id): Step<AdvanceResult> {
    var previous := FindAttempt(s.control, req.attempt);
    if req.attempt == NIL then
      Done(s, AdvanceResult(AdvanceMalformed, s.epoch, s.coordinatorBoot, None, false), false)
    else if previous.Some? then
      if previous.value.semantic != o.digest(Advancing(req)) then
        Done(s, AdvanceResult(AdvanceConflict, s.epoch, s.coordinatorBoot, None, false), false)
      else
        Done(s, AdvanceResult(AdvanceOutcomeOf(previous.value.outcome), previous.value.auxiliary, s.coordinatorBoot,
                              if previous.value.auxiliaryHigh != 0 && previous.value.auxiliary == s.epoch then LastTransition(s) else None,
                              true), false)
    else if req.expectedEpoch != s.epoch then
      Done(s, AdvanceResult(AdvanceStaleEpoch, s.epoch, s.coordinatorBoot, None, false), false)
    else if s.epoch == U64_MAX then
      Done(s, AdvanceResult(EpochExhausted, s.epoch, s.coordinatorBoot, None, false), false)
    else if s.generation == U64_MAX then
      Threw
    else
      var s1 := MutateEpoch(o, s, s.coordinatorBoot, req.cause, true, transition);
      var record := AttemptRecord(req.attempt, AdvanceKind, o.digest(Advancing(req)), 0, s1.epoch, 1, NIL);
      var s2 := s1.(control := Remember(s1.control, o.limits.maxIdempotencyRecords, record));
      Done(s2, AdvanceResult(Advanced, s2.epoch, s2.coordinatorBoot, LastTransition(s2), false), true)
  }

  const PRISTINE: State := State(0, NIL, 0, 0, 0, map[], [], [], [], [])

  /** A fresh coordinator process over the stored state: it takes the next epoch, and an
      established store loses all live authority. */
  function Reopen(o: Options, s: State, boot: Id, transition: Id): Step<U64> {
    if s.epoch == U64_MAX || s.generation == U64_MAX then Threw
    else
      var established := s.epoch != 0;
      var s1 := MutateEpoch(o, s, boot, if established then CoordinatorRestart else CoordinatorStart, established, transition);
      Done(s1, s1.epoch, true)
  }

  // ---- validation --------------------------------------------------------

  datatype Validation = Validation(
    code: ValidationCode, currentness: Currentness, registrationGeneration: Option<U64>, incarnation: Option<U64>,
    replacedByEpoch: Option<U64>, supersededBy: Option<Id>)

  function Verdictless(code: ValidationCode, currentness: Currentness): Validation {
    Validation(code, currentness, None, None, None, None)
  }

  function ValidateGrant(s: State, req: ValidateRequest, g: Grant): Validation {
    if g.epoch != s.epoch then
      Verdictless(StaleEpoch, IsStaleEpoch).(replacedByEpoch := Some(s.epoch))
    else if g.revoked then
      Verdictless(Revoked, IsRevoked)
    else if g.boot != req.token.boot then
      Verdictless(StaleWorkerBoot, IsFenced).(supersededBy := Some(g.boot))
    else if g.participant !in s.participants then
      Verdictless(UnknownParticipant, IsUnknown)
    else
      var owner := s.participants[g.participant];
      var e := Evaluate(s, owner, req.token.boot, req.token.incarnation);
      if e.code != Current then
        Validation(e.code, e.currentness, None, None, e.replacedByEpoch, e.supersededBy)
      else if req.scope !in g.scopes then
        Validation(UnauthorizedScope, IsCurrent, Some(owner.registrationGeneration), e.incarnation, None, None)
      else if g.generation != owner.registrationGeneration && req.expectedGeneration.Some?
              && req.expectedGeneration.value != owner.registrationGeneration then
        Validation(RevalidationRequired, NeedsRevalidation, Some(owner.registrationGeneration), e.incarnation, None, None)
      else
        Validation(Current, IsCurrent, Some(owner.registrationGeneration), e.incarnation, None, None)
  }

  function ValidateToken(s: State, req: ValidateRequest): Validation {
    if req.token.epoch != s.epoch then
      Verdictless(StaleEpoch, IsStaleEpoch).(replacedByEpoch := Some(s.epoch))
    else if req.token.participant !in s.participants then
      Verdictless(UnknownParticipant, IsUnknown)
    else
      var p := s.participants[req.token.participant];
      var e := Evaluate(s, p, req.token.boot, req.token.incarnation);
      if p.retired then
        Verdictless(Retired, IsRetired)
      else if e.code != Current then
        Validation(e.code, e.currentness, Some(p.registrationGeneration), e.incarnation, e.replacedByEpoch, e.supersededBy)
      else if req.scope !in p.scopes then
        Validation(UnauthorizedScope, IsCurrent, Some(p.registrationGeneration), e.incarnation, None, None)
      else if req.expectedGeneration.Some? && req.expectedGeneration.value != p.registrationGeneration then
        Validation(RevalidationRequired, NeedsRevalidation, Some(p.registrationGeneration), e.incarnation, None, None)
      else
        Validation(Current, IsCurrent, Some(p.registrationGeneration), e.incarnation, None, None)
  }

  /** The currentness check downstream components make before every mutation. */
  function Validate(s: State, req: ValidateRequest): Validation {
    if req.token.participant.text == [] || req.token.boot == NIL || req.token.incarnation == 0 then
      Verdictless(Malformed, IsUnknown)
    else if req.grant.Some? then
      var i := IndexOf(s.grants, req.grant.value);
      if i.None? then Verdictless(UnknownGrant, IsUnknown) else ValidateGrant(s, req, s.grants[i.value])
    else
      ValidateToken(s, req)
  }
}
