/** Which answer each request receives: every refusal with its exact condition, which fixes the order
    in which the conditions are judged. */
module Answers {
  import opened Basics
  import opened Model
  import opened Forest
  import opened Authority
  import opened Invariant
  import opened Preservation
  import opened Batch
  import opened Runs
  import opened Replay
  import opened Verdicts
  import opened Effects
  import opened Gates

  /** The attempt is on record for a request with the same meaning. */
  predicate Repeats(table: seq<AttemptRecord>, attempt: Id, digest: Digest) {
    exists r :: r in table && r.attempt == attempt && r.semantic == digest
  }

  /** The attempt is on record for a request with another meaning. */
  predicate Contradicts(table: seq<AttemptRecord>, attempt: Id, digest: Digest) {
    exists r :: r in table && r.attempt == attempt && r.semantic != digest
  }

  lemma AttemptJudged(table: seq<AttemptRecord>, bound: nat, attempt: Id, digest: Digest)
    requires TableOk(table, bound)
    ensures var found := FindAttempt(table, attempt);
            && (found.None? <==> NewAttempt(table, attempt))
            && (found.Some? && found.value.semantic == digest <==> Repeats(table, attempt, digest))
            && (found.Some? && found.value.semantic != digest <==> Contradicts(table, attempt, digest))
  {
    hide FindAttempt;
    NewAttemptIff(table, attempt);
    forall r | r in table && r.attempt == attempt
      ensures FindAttempt(table, attempt) == Some(r)
    {
      var i :| 0 <= i < |table| && table[i] == r;
      var found := FindAttempt(table, attempt).value;
      var j :| 0 <= j < |table| && table[j] == found;
      assert i == j;
    }
  }

  lemma KnownTable(o: Options, s: State, id: ParticipantId, attempt: Id, digest: Digest)
    requires Inv(o, s) && id in s.participants
    ensures var table := s.participants[id].idempotency;
            var found := FindAttempt(table, attempt);
            && (found.None? <==> NewAttempt(table, attempt))
            && (found.Some? && found.value.semantic == digest <==> Repeats(table, attempt, digest))
            && (found.Some? && found.value.semantic != digest <==> Contradicts(table, attempt, digest))
  {
    hide Inv, FindAttempt, NewAttempt, Repeats, Contradicts;
    KnownParticipantOk(o, s, id);
    AttemptJudged(s.participants[id].idempotency, o.limits.maxIdempotencyRecords, attempt, digest);
  }

  lemma ControlTable(o: Options, s: State, attempt: Id, digest: Digest)
    requires Inv(o, s)
    ensures var found := FindAttempt(s.control, attempt);
            && (found.None? <==> NewAttempt(s.control, attempt))
            && (found.Some? && found.value.semantic == digest <==> Repeats(s.control, attempt, digest))
            && (found.Some? && found.value.semantic != digest <==> Contradicts(s.control, attempt, digest))
  {
    hide Inv, FindAttempt, NewAttempt, Repeats, Contradicts;
    ControlTableOk(o, s);
    AttemptJudged(s.control, o.limits.maxIdempotencyRecords, attempt, digest);
  }

  // ---- registrations -----------------------------------------------------

  predicate RegistrationWellFormed(o: Options, req: RegisterRequest) {
    && req.attempt != NIL && req.participant.text != [] && req.boot != NIL
    && IsBoundedText(req.provenance, o.limits.maxStringSize) && req.scopes != []
  }

  /** The policy and every kind of scope asked for are enabled. */
  predicate Permitted(o: Options, req: RegisterRequest) {
    (req.policy == MultiIncarnation ==> o.allowMulti) && forall x :: x in req.scopes ==> o.registrable(x.kind)
  }

  predicate OfKnown(o: Options, s: State, req: RegisterRequest) {
    WellAsked(o, s, req) && req.participant in s.participants
  }

  /** Well asked, of a participant that has not retired and for a boot that is not fenced. */
  predicate Unbarred(o: Options, s: State, req: RegisterRequest) {
    OfKnown(o, s, req) && !s.participants[req.participant].retired && !KnownFenced(s, req.participant, req.boot)
  }

  predicate RetriesRegistration(o: Options, s: State, req: RegisterRequest) {
    Unbarred(o, s, req) && Repeats(s.participants[req.participant].idempotency, req.attempt, o.digest(Registering(req)))
  }

  predicate AsksAnew(o: Options, s: State, req: RegisterRequest) {
    Unbarred(o, s, req) && NewAttempt(s.participants[req.participant].idempotency, req.attempt)
  }

  predicate AsksAsIs(o: Options, s: State, req: RegisterRequest) {
    AsksAnew(o, s, req) && UpToDate(s, req.participant, req.expectedGeneration)
  }

  /** An incumbent stands in the way, or the participant runs under the other policy. */
  ghost predicate Conflicting(o: Options, s: State, req: RegisterRequest) {
    && req.participant in s.participants
    && (s.participants[req.participant].policy != req.policy
        || (!RunsUnder(s, req.participant, req.boot) && Occupied(s, req) && o.replacement == RequireExplicitFence))
  }

  /** No room: too many scopes, too many participants, or too many workers. */
  ghost predicate NoRoom(o: Options, s: State, req: RegisterRequest) {
    || (RegistrationWellFormed(o, req) && |req.scopes| > o.limits.maxScopesPerGrant)
    || (WellAsked(o, s, req) && req.participant !in s.participants && |s.participants| >= o.limits.maxParticipants)
    || (WellAsked(o, s, req) && Welcome(o, s, req) && !Occupied(s, req) && Workers(s) >= o.limits.maxActiveWorkers)
  }

  /** The refusals of a registration that is not a retry. */
  ghost predicate RegistrationRefused(o: Options, s: State, req: RegisterRequest, outcome: RegistrationOutcome) {
    var sized := RegistrationWellFormed(o, req) && |req.scopes| <= o.limits.maxScopesPerGrant;
    && (outcome == RegisterMalformed <==> !RegistrationWellFormed(o, req))
    && (outcome == RegisterUnauthorized <==> sized && !Permitted(o, req))
    && (outcome == RegisterStaleEpoch <==> sized && Permitted(o, req) && req.expectedEpoch != s.epoch)
    && (outcome == RetiredParticipant <==> OfKnown(o, s, req) && s.participants[req.participant].retired)
    && (outcome == RegisterStaleBoot <==>
          OfKnown(o, s, req) && !s.participants[req.participant].retired && KnownFenced(s, req.participant, req.boot))
    && (outcome == ConflictingAttempt <==>
          Unbarred(o, s, req) && Contradicts(s.participants[req.participant].idempotency, req.attempt, o.digest(Registering(req))))
    && (outcome == RegisterRevalidation <==> AsksAnew(o, s, req) && !UpToDate(s, req.participant, req.expectedGeneration))
    && (outcome == ConflictingIncarnation <==> AsksAsIs(o, s, req) && Conflicting(o, s, req))
    && (outcome == AlreadyActive <==>
          AsksAsIs(o, s, req) && s.participants[req.participant].policy == req.policy && RunsUnder(s, req.participant, req.boot))
    && (outcome == RegisterLimit <==> NoRoom(o, s, req))
    && outcome != Idempotent
  }

  /** Every answer to a registration: a retry gets what was recorded, a refusal has exactly its own
      reason and leaves the state alone, and there is no other outcome but acceptance. */
  lemma RegistrationAnswers(o: Options, s: State, req: RegisterRequest, commit: bool)
    requires ViableOptions(o) && Inv(o, s)
    ensures var step := Register(o, s, req, commit);
            step.Done? ==>
              && (step.result.replayed <==> RetriesRegistration(o, s, req))
              && (!step.result.replayed ==> RegistrationRefused(o, s, req, step.result.outcome))
              && (step.result.replayed || step.result.outcome != Registered ==> step.state == s && !step.mutated)
              && step.result.epoch == s.epoch && step.result.coordinatorBoot == s.coordinatorBoot
              && (!step.result.replayed && step.result.outcome != Registered ==>
                    if step.result.outcome == AlreadyActive
                    then step.result.incarnation.Some? && LiveIn(s, req.participant, req.boot, step.result.incarnation.value)
                    else step.result.incarnation.None?)
  {
    hide Inv, Screen, RecordFence, EnrolWithinLimits, RegistrationRefused, RetriesRegistration, LiveIn, Welcome, WellAsked, Occupied, Workers;
    var v := Screen(o, s, req);
    ScreenIff(o, s, req);
    if v.Refuse? {
      ScreenAnswers(o, s, req);
    } else if v.Replace? {
      ReplacementMakesRoom(o, s, req);
      var fence := RecordFence(o, s, req.participant, v.incumbent, Reincarnation, [], false);
      if fence.Done? {
        EnrolmentAnswers(o, fence.state, req, commit, fence.mutated);
        RecordFenceFrame(o, s, req.participant, v.incumbent, Reincarnation, [], false);
        AdmittedAnswers(o, s, req, Registered);
      }
    } else {
      EnrolmentAnswers(o, s, req, commit, false);
      AdmittedAnswers(o, s, req, if Workers(s) >= o.limits.maxActiveWorkers then RegisterLimit else Registered);
    }
  }

  lemma EnrolmentAnswers(o: Options, s: State, req: RegisterRequest, commit: bool, mutated: bool)
    ensures var step := EnrolWithinLimits(o, s, req, commit, mutated);
            step.Done? ==>
              && step.result.outcome == (if Workers(s) >= o.limits.maxActiveWorkers then RegisterLimit else Registered)
              && !step.result.replayed && step.result.epoch == s.epoch && step.result.coordinatorBoot == s.coordinatorBoot
              && (step.result.outcome == RegisterLimit ==> step.state == s && step.mutated == mutated && step.result.incarnation.None?)
  {
    hide Workers, Enrolled;
  }

  /** Nothing but want of room refuses a registration that passed the checks. */
  lemma AdmittedAnswers(o: Options, s: State, req: RegisterRequest, outcome: RegistrationOutcome)
    requires Inv(o, s) && WellAsked(o, s, req) && Welcome(o, s, req) && (Occupied(s, req) ==> o.replacement == ReplaceIncumbent)
    requires outcome == if !Occupied(s, req) && Workers(s) >= o.limits.maxActiveWorkers then RegisterLimit else Registered
    ensures RegistrationRefused(o, s, req, outcome) && !RetriesRegistration(o, s, req)
  {
    hide Inv, IsBoundedText, KnownFenced, RunsUnder, NewAttempt, Repeats, Contradicts, Occupied, Workers, UpToDate;
    if req.participant in s.participants {
      KnownTable(o, s, req.participant, req.attempt, o.digest(Registering(req)));
    }
  }

  /** What the checks refuse, and why. */
  lemma ScreenAnswers(o: Options, s: State, req: RegisterRequest)
    requires Inv(o, s) && Screen(o, s, req).Refuse?
    ensures var r := Screen(o, s, req).result;
            && (r.replayed <==> RetriesRegistration(o, s, req))
            && (!r.replayed ==> RegistrationRefused(o, s, req, r.outcome) && r.outcome != Registered)
            && r.epoch == s.epoch && r.coordinatorBoot == s.coordinatorBoot
            && (!r.replayed ==>
                  if r.outcome == AlreadyActive then r.incarnation.Some? && LiveIn(s, req.participant, req.boot, r.incarnation.value)
                  else r.incarnation.None?)
  {
    hide Inv, LookupFence, FindAttempt, FindIncarnation, IsBoundedText, KnownFenced, RunsUnder, NewAttempt, NothingLive, RegistrableScopes, Repeats, Contradicts, Workers, LiveIn;
    RegistrableIff(o, req.scopes);
    if req.participant in s.participants {
      KnownTable(o, s, req.participant, req.attempt, o.digest(Registering(req)));
      KnownFencedIff(s, req.participant, req.boot);
      RunsIff(o, s, req.participant, req.boot);
      FoundIsLive(o, s, req.participant, req.boot);
      NothingLiveIff(o, s, req.participant);
    }
  }

  // ---- fences ------------------------------------------------------------

  predicate FenceWellFormed(req: FenceRequest) {
    req.attempt != NIL && req.participant.text != [] && req.boot != NIL
  }

  /** Well formed, of this epoch and of a known participant. */
  predicate FenceAsked(s: State, req: FenceRequest) {
    FenceWellFormed(req) && req.expectedEpoch == s.epoch && req.participant in s.participants
  }

  predicate RetriesFence(o: Options, s: State, req: FenceRequest) {
    FenceAsked(s, req) && Repeats(s.participants[req.participant].idempotency, req.attempt, o.digest(Fencing(req)))
  }

  predicate FenceAnew(s: State, req: FenceRequest) {
    FenceAsked(s, req) && NewAttempt(s.participants[req.participant].idempotency, req.attempt)
  }

  /** Every answer to a fence request that is not a retry. */
  lemma FenceAnswers(o: Options, s: State, req: FenceRequest)
    requires Inv(o, s)
    ensures var step := FenceWorker(o, s, req);
            step.Done? ==>
              && step.result.epoch == s.epoch
              && (RetriesFence(o, s, req) || step.result.outcome != FenceDone ==> step.state == s && !step.mutated)
              && (!RetriesFence(o, s, req) ==>
                    && (step.result.outcome == FenceMalformed <==> !FenceWellFormed(req))
                    && (step.result.outcome == FenceStaleEpoch <==> FenceWellFormed(req) && req.expectedEpoch != s.epoch)
                    && (step.result.outcome == FenceUnknownParticipant <==>
                          FenceWellFormed(req) && req.expectedEpoch == s.epoch && req.participant !in s.participants)
                    && (step.result.outcome == FenceConflict <==>
                          FenceAsked(s, req) && Contradicts(s.participants[req.participant].idempotency, req.attempt, o.digest(Fencing(req))))
                    && (step.result.outcome == AlreadyFenced <==> FenceAnew(s, req) && KnownFenced(s, req.participant, req.boot))
                    && (step.result.outcome == FenceLimit <==>
                          FenceAnew(s, req) && !KnownFenced(s, req.participant, req.boot)
                          && !RunsUnder(s, req.participant, req.boot) && |s.fences| >= o.limits.maxRecentFences)
                    && step.result.outcome != NoFenceRequired)
  {
    hide Inv, FindAttempt, LookupFence, FindIncarnation, LiveFence, PreventiveFence, KnownFenced, RunsUnder, NewAttempt, Remember, Repeats, Contradicts;
    if req.participant in s.participants {
      KnownTable(o, s, req.participant, req.attempt, o.digest(Fencing(req)));
      KnownFencedIff(s, req.participant, req.boot);
      RunsIff(o, s, req.participant, req.boot);
    }
  }

  /** Fencing again what is known to be fenced changes nothing, whoever asks and whatever the request says. */
  lemma RefencingIsIdle(o: Options, s: State, req: FenceRequest)
    requires Inv(o, s) && KnownFenced(s, req.participant, req.boot)
    ensures var step := FenceWorker(o, s, req); step.Done? && step.state == s && !step.mutated
    ensures FenceAnew(s, req) ==> FenceWorker(o, s, req).result.outcome == AlreadyFenced
  {
    hide Inv, FindAttempt, LookupFence, FindIncarnation, LiveFence, PreventiveFence, KnownFenced, NewAttempt, Remember;
    KnownFencedIff(s, req.participant, req.boot);
    if req.participant in s.participants {
      NewAttemptIff(s.participants[req.participant].idempotency, req.attempt);
    }
  }

  // ---- retirements -------------------------------------------------------

  predicate RetirementWellFormed(req: RetireRequest) {
    req.attempt != NIL && req.participant.text != []
  }

  predicate RetirementAsked(s: State, req: RetireRequest) {
    RetirementWellFormed(req) && req.expectedEpoch == s.epoch && req.participant in s.participants
  }

  predicate RetriesRetirement(o: Options, s: State, req: RetireRequest) {
    RetirementAsked(s, req) && Repeats(s.participants[req.participant].idempotency, req.attempt, o.digest(Retiring(req)))
  }

  /** Every answer to a retirement that is not a retry. */
  lemma RetirementAnswers(o: Options, s: State, req: RetireRequest)
    requires ViableOptions(o) && Inv(o, s)
    ensures var step := Retire(o, s, req);
            step.Done? ==>
              && step.result.epoch == s.epoch
              && (RetriesRetirement(o, s, req) || step.result.outcome != RetireDone ==> step.state == s && !step.mutated)
              && (!RetriesRetirement(o, s, req) ==>
                    && (step.result.outcome == RetireMalformed <==> !RetirementWellFormed(req))
                    && (step.result.outcome == RetireStaleEpoch <==> RetirementWellFormed(req) && req.expectedEpoch != s.epoch)
                    && (step.result.outcome == RetireUnknownParticipant <==>
                          RetirementWellFormed(req) && req.expectedEpoch == s.epoch && req.participant !in s.participants)
                    && (step.result.outcome == RetireConflict <==>
                          RetirementAsked(s, req)
                          && Contradicts(s.participants[req.participant].idempotency, req.attempt, o.digest(Retiring(req))))
                    && (step.result.outcome == RetireOutcome.AlreadyRetired <==>
                          RetirementAsked(s, req) && NewAttempt(s.participants[req.participant].idempotency, req.attempt)
                          && s.participants[req.participant].retired))
  {
    hide Inv, FenceEach, FindAttempt, NewAttempt, LiveBoots, RetiredParticipantRecord, Repeats, Contradicts;
    if req.participant in s.participants {
      KnownTable(o, s, req.participant, req.attempt, o.digest(Retiring(req)));
    }
  }

  // ---- grants ------------------------------------------------------------

  predicate GrantWellFormed(req: GrantRequest) {
    req.attempt != NIL && req.participant.text != [] && req.boot != NIL && req.incarnation != 0 && req.scopes != []
  }

  predicate GrantInForm(o: Options, s: State, req: GrantRequest) {
    GrantWellFormed(req) && |req.scopes| <= o.limits.maxScopesPerGrant && req.expectedEpoch == s.epoch
  }

  /** The incarnation that asks is live. */
  predicate GrantFromLive(o: Options, s: State, req: GrantRequest) {
    GrantInForm(o, s, req) && req.participant in s.participants && LiveIn(s, req.participant, req.boot, req.incarnation)
  }

  /** It is current for every scope it asks for. */
  predicate GrantCovered(o: Options, s: State, req: GrantRequest) {
    && GrantFromLive(o, s, req)
    && forall x :: x in req.scopes ==> Admits(s, TokenFor(s, req.participant, req.boot, req.incarnation, x, None))
  }

  predicate RetriesGrant(o: Options, s: State, req: GrantRequest) {
    GrantCovered(o, s, req) && Repeats(s.participants[req.participant].idempotency, req.attempt, o.digest(Granting(req)))
  }

  predicate GrantAnew(o: Options, s: State, req: GrantRequest) {
    GrantCovered(o, s, req) && NewAttempt(s.participants[req.participant].idempotency, req.attempt)
  }

  /** The parent named, if any, would validate for every scope asked for. */
  ghost predicate ParentAgrees(s: State, req: GrantRequest) {
    req.parent.Some? ==> forall x :: x in req.scopes ==> ParentCovers(s, req.parent.value, x)
  }

  ghost predicate GrantRefused(o: Options, s: State, req: GrantRequest, outcome: GrantOutcome) {
    && (outcome == GrantMalformed <==> !GrantWellFormed(req))
    && (outcome == GrantStaleEpoch <==>
          GrantWellFormed(req) && |req.scopes| <= o.limits.maxScopesPerGrant && req.expectedEpoch != s.epoch)
    && (outcome == GrantUnknownParticipant <==> GrantInForm(o, s, req) && req.participant !in s.participants)
    && (outcome == GrantStaleBoot <==>
          GrantInForm(o, s, req) && req.participant in s.participants && !LiveIn(s, req.participant, req.boot, req.incarnation))
    && (outcome == GrantUnauthorized <==> GrantFromLive(o, s, req) && !GrantCovered(o, s, req))
    && (outcome == GrantConflict <==>
          && GrantCovered(o, s, req)
          && Contradicts(s.participants[req.participant].idempotency, req.attempt, o.digest(Granting(req))))
    && (outcome == DelegationRejected <==> GrantAnew(o, s, req) && !ParentAgrees(s, req))
    && (outcome == GrantLimit <==>
          || (GrantWellFormed(req) && |req.scopes| > o.limits.maxScopesPerGrant)
          || (GrantAnew(o, s, req) && ParentAgrees(s, req) && |s.grants| >= o.limits.maxGrants))
  }

  /** Every answer to a request for a grant. */
  lemma GrantAnswers(o: Options, s: State, req: GrantRequest, id: Id)
    requires ViableOptions(o) && Inv(o, s)
    ensures var step := GrantAuthority(o, s, req, id);
            step.Done? ==>
              && step.result.epoch == s.epoch && (step.result.replayed <==> RetriesGrant(o, s, req))
              && (!step.result.replayed ==> GrantRefused(o, s, req, step.result.outcome))
              && (step.result.replayed || step.result.outcome != Granted ==> step.state == s && !step.mutated)
              && (!step.result.replayed && step.result.outcome != Granted ==> step.result.grant.None? && step.result.generation.None?)
  {
    hide Inv, FindAttempt, NewAttempt, Evaluate, MayDelegate, ScopesWithin, Admits, LiveIn, AddGrant, ParentCovers, Repeats, Contradicts;
    if req.participant in s.participants && req.incarnation != 0 && req.boot != NIL && req.scopes != [] {
      var p := s.participants[req.participant];
      KnownTable(o, s, req.participant, req.attempt, o.digest(Granting(req)));
      Evaluated(o, s, req.participant, req.boot, req.incarnation);
      if LiveIn(s, req.participant, req.boot, req.incarnation) {
        CoveredIff(o, s, req);
      }
      if req.parent.Some? {
        DelegatesIff(o, s, req.parent.value, req.scopes);
      }
    }
  }

  lemma CoveredIff(o: Options, s: State, req: GrantRequest)
    requires Inv(o, s) && req.participant in s.participants && LiveIn(s, req.participant, req.boot, req.incarnation)
    requires req.incarnation != 0 && req.boot != NIL
    ensures ScopesWithin(req.scopes, s.participants[req.participant].scopes) <==>
              forall x :: x in req.scopes ==> Admits(s, TokenFor(s, req.participant, req.boot, req.incarnation, x, None))
  {
    hide Inv, ScopesWithin, Admits, LiveIn;
    SameId(o, s, req.participant);
    WithinIff(req.scopes, s.participants[req.participant].scopes);
    forall x: Scope
      ensures Admits(s, TokenFor(s, req.participant, req.boot, req.incarnation, x, None)) <==> x in s.participants[req.participant].scopes
    {
      AdmitsIff(o, s, TokenFor(s, req.participant, req.boot, req.incarnation, x, None));
    }
  }

  // ---- revocations and advances ------------------------------------------

  predicate RevocationAsked(s: State, req: RevokeRequest) {
    req.attempt != NIL && req.grant != NIL && req.expectedEpoch == s.epoch
  }

  predicate RetriesRevocation(o: Options, s: State, req: RevokeRequest) {
    RevocationAsked(s, req) && Repeats(s.control, req.attempt, o.digest(Revoking(req)))
  }

  /** Every answer to a revocation that is not a retry. */
  lemma RevocationAnswers(o: Options, s: State, req: RevokeRequest)
    requires Inv(o, s)
    ensures var step := RevokeAuthority(o, s, req);
            var anew := RevocationAsked(s, req) && NewAttempt(s.control, req.attempt);
            step.Done? ==>
              && step.result.epoch == s.epoch
              && (RetriesRevocation(o, s, req) || step.result.outcome != RevokeDone ==> step.state == s && !step.mutated)
              && (!RetriesRevocation(o, s, req) ==>
                    && (step.result.outcome == RevokeMalformed <==> req.attempt == NIL || req.grant == NIL)
                    && (step.result.outcome == RevokeStaleEpoch <==>
                          req.attempt != NIL && req.grant != NIL && req.expectedEpoch != s.epoch)
                    && (step.result.outcome == RevokeConflict <==>
                          RevocationAsked(s, req) && Contradicts(s.control, req.attempt, o.digest(Revoking(req))))
                    && (step.result.outcome == RevokeUnknownGrant <==> anew && forall g :: g in s.grants ==> g.id != req.grant)
                    && (step.result.outcome == AlreadyRevoked <==> anew && exists g :: g in s.grants && g.id == req.grant && g.revoked))
  {
    hide Inv, FindAttempt, NewAttempt, RevokeTree, NewlyRevoked, Repeats, Contradicts;
    ControlTable(o, s, req.attempt, o.digest(Revoking(req)));
    var t := IndexOf(s.grants, req.grant);
    if t.Some? {
      assert s.grants[t.value] in s.grants;
    }
    forall g | g in s.grants && g.id == req.grant
      ensures t.Some? && s.grants[t.value] == g
    {
      FindsThatGrant(o, s, g);
    }
  }

  predicate RetriesAdvance(o: Options, s: State, req: AdvanceRequest) {
    req.attempt != NIL && Repeats(s.control, req.attempt, o.digest(Advancing(req)))
  }

  /** Every answer to an advance. Here alone a retry is recognised before the epoch is compared. */
  lemma AdvanceAnswers(o: Options, s: State, req: AdvanceRequest, transition: Id)
    requires Inv(o, s)
    ensures var step := AdvanceEpoch(o, s, req, transition);
            var anew := req.attempt != NIL && NewAttempt(s.control, req.attempt);
            step.Done? ==>
              && (step.result.replayed <==> RetriesAdvance(o, s, req))
              && (step.result.replayed || step.result.outcome != Advanced ==> step.state == s && !step.mutated)
              && (!step.result.replayed ==>
                    && (step.result.outcome == AdvanceMalformed <==> req.attempt == NIL)
                    && (step.result.outcome == AdvanceConflict <==>
                          req.attempt != NIL && Contradicts(s.control, req.attempt, o.digest(Advancing(req))))
                    && (step.result.outcome == AdvanceStaleEpoch <==> anew && req.expectedEpoch != s.epoch)
                    && (step.result.outcome == EpochExhausted <==> anew && req.expectedEpoch == s.epoch && s.epoch == U64_MAX)
                    && step.result.epoch == step.state.epoch)
              && step.result.coordinatorBoot == s.coordinatorBoot
  {
    hide Inv, FindAttempt, NewAttempt, InvalidateAll, Remember, Repeats, Contradicts;
    ControlTable(o, s, req.attempt, o.digest(Advancing(req)));
  }
}
