/** What a validation answers, in terms of the state alone: exactly when a token or a grant is
    current, and exactly when each refusal is given. */
module Verdicts {
  import opened Basics
  import opened Model
  import opened Forest
  import opened Authority
  import opened Invariant
  import opened Preservation
  import opened Runs

  predicate Admits(s: State, req: ValidateRequest) {
    Validate(s, req).code == Current
  }

  /** The token names a participant, a boot and an incarnation. */
  predicate WellPut(req: ValidateRequest) {
    req.token.participant.text != [] && req.token.boot != NIL && req.token.incarnation != 0
  }

  /** The boot is known to have been fenced for this participant. */
  predicate KnownFenced(s: State, id: ParticipantId, boot: Id) {
    Recorded(s.fences, id, boot) || (id in s.participants && boot in s.participants[id].fencedBoots)
  }

  predicate NothingLive(s: State, id: ParticipantId) {
    forall b: Id, q: U64 :: !LiveIn(s, id, b, q)
  }

  /** The participant lost its incarnations to an epoch change, and this is not one it had before:
      it must register again. */
  predicate AwaitsRevalidation(s: State, id: ParticipantId, boot: Id, sequence: U64) {
    && id in s.participants && s.participants[id].revalidationRequired && !s.participants[id].hasActiveBoot
    && !KnownFenced(s, id, boot) && sequence > s.participants[id].incarnationFloor
  }

  /** The expected generation, if any, is the one the participant is registered under. */
  predicate UpToDate(s: State, id: ParticipantId, expected: Option<U64>) {
    id in s.participants && (expected.Some? ==> expected.value == s.participants[id].registrationGeneration)
  }

  // ---- one incarnation ---------------------------------------------------

  lemma NothingLiveIff(o: Options, s: State, id: ParticipantId)
    requires Inv(o, s) && id in s.participants
    ensures NothingLive(s, id) <==> !s.participants[id].hasActiveBoot
    ensures s.participants[id].hasActiveBoot <==> HasCurrent(s.participants[id])
  {
    hide Inv;
    KnownLiveOk(o, s, id);
    var p := s.participants[id];
    assert p.hasActiveBoot ==> LiveIn(s, id, p.activeBoot, p.activeIncarnation);
  }

  lemma KnownFencedIff(s: State, id: ParticipantId, boot: Id)
    ensures LookupFence(s, id, boot).fenced <==> KnownFenced(s, id, boot)
  {
  }

  /** What evaluating one incarnation of a known participant comes to. */
  lemma Evaluated(o: Options, s: State, id: ParticipantId, boot: Id, sequence: U64)
    requires Inv(o, s) && id in s.participants && sequence != 0
    ensures var e := Evaluate(s, s.participants[id], boot, sequence);
            && (e.code == Current <==> LiveIn(s, id, boot, sequence))
            && (e.code == RevalidationRequired <==> AwaitsRevalidation(s, id, boot, sequence))
            && (e.code == Current || e.code == RevalidationRequired || e.code == StaleWorkerBoot)
            && (e.code == Current ==> e.incarnation == Some(sequence))
            && e.currentness == (if e.code == Current then IsCurrent
                                 else if e.code == RevalidationRequired then NeedsRevalidation else IsFenced)
  {
    hide Inv, LookupFence, FindIncarnation, IsLive, KnownFenced, Recorded;
    var p := s.participants[id];
    KnownLiveOk(o, s, id);
    SameId(o, s, id);
    LiveIsFound(p, boot, sequence);
    NothingLiveIff(o, s, id);
    KnownFencedIff(s, id, boot);
    if FindIncarnation(p, boot).Some? {
      assert IsLive(p, boot, FindIncarnation(p, boot).value);
      assert LiveIn(s, id, boot, FindIncarnation(p, boot).value);
    }
  }

  lemma SameId(o: Options, s: State, id: ParticipantId)
    requires Inv(o, s) && id in s.participants
    ensures s.participants[id].id == id && id.text != []
  {
  }

  // ---- tokens ------------------------------------------------------------

  /** The participant a token names is known and has not retired, and the token is of this epoch. */
  predicate TokenStands(s: State, token: Token) {
    token.epoch == s.epoch && token.participant in s.participants && !s.participants[token.participant].retired
  }

  /** Every answer on the token path, each with its exact condition. */
  lemma TokenVerdicts(o: Options, s: State, req: ValidateRequest)
    requires Inv(o, s) && req.grant.None?
    ensures var v := Validate(s, req);
            var t := req.token;
            var id := t.participant;
            var live := LiveIn(s, id, t.boot, t.incarnation);
            var authorized := live && id in s.participants && req.scope in s.participants[id].scopes;
            && (v.code == Malformed <==> !WellPut(req))
            && (v.code == StaleEpoch <==> WellPut(req) && t.epoch != s.epoch)
            && (v.code == UnknownParticipant <==> WellPut(req) && t.epoch == s.epoch && id !in s.participants)
            && (v.code == Retired <==> WellPut(req) && t.epoch == s.epoch && id in s.participants && s.participants[id].retired)
            && (v.code == StaleWorkerBoot <==>
                  WellPut(req) && TokenStands(s, t) && !live && !AwaitsRevalidation(s, id, t.boot, t.incarnation))
            && (v.code == UnauthorizedScope <==> WellPut(req) && TokenStands(s, t) && live && !authorized)
            && (v.code == RevalidationRequired <==>
                  && WellPut(req) && TokenStands(s, t)
                  && (AwaitsRevalidation(s, id, t.boot, t.incarnation) || (authorized && !UpToDate(s, id, req.expectedGeneration))))
            && (v.code == Current <==> WellPut(req) && TokenStands(s, t) && authorized && UpToDate(s, id, req.expectedGeneration))
  {
    hide Inv, Evaluate, LiveIn, AwaitsRevalidation;
    var id := req.token.participant;
    if id in s.participants && req.token.incarnation != 0 {
      Evaluated(o, s, id, req.token.boot, req.token.incarnation);
      LiveNeverAwaits(o, s, id, req.token.boot, req.token.incarnation);
    }
  }

  lemma LiveNeverAwaits(o: Options, s: State, id: ParticipantId, boot: Id, sequence: U64)
    requires Inv(o, s) && id in s.participants
    ensures LiveIn(s, id, boot, sequence) ==> !AwaitsRevalidation(s, id, boot, sequence)
  {
    hide Inv;
    NothingLiveIff(o, s, id);
  }

  // ---- grants ------------------------------------------------------------

  predicate Holds(s: State, g: Grant, req: ValidateRequest) {
    LiveIn(s, g.participant, req.token.boot, req.token.incarnation)
  }

  /** The grant is unrevoked, of this epoch, and made out to the boot presented. */
  predicate GrantStands(s: State, g: Grant, boot: Id) {
    g.epoch == s.epoch && !g.revoked && g.boot == boot
  }

  /** The expected generation is that of the participant, or the grant itself carries that. */
  predicate GrantUpToDate(s: State, g: Grant, expected: Option<U64>) {
    UpToDate(s, g.participant, expected) || (g.participant in s.participants && g.generation == s.participants[g.participant].registrationGeneration)
  }

  /** Exactly when a grant validates: it is held, stands, covers the scope asked for, and the
      generation expected, if any, is met. */
  lemma GrantCurrentIff(o: Options, s: State, req: ValidateRequest, id: Id)
    requires Inv(o, s) && req.grant == Some(id)
    ensures Admits(s, req) <==>
              WellPut(req) && exists g :: g in s.grants && g.id == id && GrantAdmits(s, g, req)
  {
    hide Inv, Validate, GrantAdmits;
    var i := IndexOf(s.grants, id);
    forall g | g in s.grants && g.id == id
      ensures Admits(s, req) <==> WellPut(req) && GrantAdmits(s, g, req)
    {
      GrantVerdicts(o, s, req, g);
    }
    if i.None? {
      UnknownGrantVerdict(s, req, id);
    } else {
      assert s.grants[i.value] in s.grants;
    }
  }

  predicate GrantAdmits(s: State, g: Grant, req: ValidateRequest) {
    GrantStands(s, g, req.token.boot) && Holds(s, g, req) && req.scope in g.scopes && GrantUpToDate(s, g, req.expectedGeneration)
  }

  lemma UnknownGrantVerdict(s: State, req: ValidateRequest, id: Id)
    requires req.grant == Some(id)
    ensures var v := Validate(s, req);
            && (v.code == Malformed <==> !WellPut(req))
            && (v.code == UnknownGrant <==> WellPut(req) && forall g :: g in s.grants ==> g.id != id)
  {
    hide ValidateGrant;
    var i := IndexOf(s.grants, id);
    if i.Some? {
      assert s.grants[i.value] in s.grants;
      NeverUnknownGrant(s, req, s.grants[i.value]);
    }
  }

  lemma NeverUnknownGrant(s: State, req: ValidateRequest, g: Grant)
    ensures ValidateGrant(s, req, g).code != UnknownGrant && ValidateGrant(s, req, g).code != Malformed
  {
    hide LookupFence, FindIncarnation;
  }

  /** Every answer for a grant there is, each with its exact condition. */
  lemma GrantVerdicts(o: Options, s: State, req: ValidateRequest, g: Grant)
    requires Inv(o, s) && g in s.grants && req.grant == Some(g.id)
    ensures var v := Validate(s, req);
            var t := req.token;
            var owner := g.participant;
            var awaits := AwaitsRevalidation(s, owner, t.boot, t.incarnation);
            && (v.code == Malformed <==> !WellPut(req))
            && (v.code == StaleEpoch <==> WellPut(req) && g.epoch != s.epoch)
            && (v.code == Revoked <==> WellPut(req) && g.epoch == s.epoch && g.revoked)
            && (v.code == UnknownParticipant <==> WellPut(req) && GrantStands(s, g, t.boot) && owner !in s.participants)
            && (v.code == StaleWorkerBoot <==>
                  && WellPut(req) && g.epoch == s.epoch && !g.revoked
                  && (g.boot != t.boot || (owner in s.participants && !Holds(s, g, req) && !awaits)))
            && (v.code == UnauthorizedScope <==> WellPut(req) && GrantStands(s, g, t.boot) && Holds(s, g, req) && req.scope !in g.scopes)
            && (v.code == RevalidationRequired <==>
                  && WellPut(req) && GrantStands(s, g, t.boot)
                  && (awaits || (Holds(s, g, req) && req.scope in g.scopes && !GrantUpToDate(s, g, req.expectedGeneration))))
            && (v.code == Current <==> WellPut(req) && GrantAdmits(s, g, req))
            && v.code != UnknownGrant && v.code != Retired
  {
    hide Inv, Evaluate, LiveIn, AwaitsRevalidation;
    FindsThatGrant(o, s, g);
    var owner := g.participant;
    if owner in s.participants && req.token.incarnation != 0 {
      Evaluated(o, s, owner, req.token.boot, req.token.incarnation);
      LiveNeverAwaits(o, s, owner, req.token.boot, req.token.incarnation);
    } else if owner !in s.participants {
      UnknownNeverLive(s, owner, req.token.boot, req.token.incarnation);
    }
  }

  lemma UnknownNeverLive(s: State, id: ParticipantId, boot: Id, sequence: U64)
    requires id !in s.participants
    ensures !LiveIn(s, id, boot, sequence) && !AwaitsRevalidation(s, id, boot, sequence)
  {
  }

  lemma FindsThatGrant(o: Options, s: State, g: Grant)
    requires Inv(o, s) && g in s.grants
    ensures var i := IndexOf(s.grants, g.id); i.Some? && s.grants[i.value] == g
  {
    hide ParticipantsOk, FencesOk, TransitionsOk, ControlOk, SumsOk, Rooted;
    var k :| 0 <= k < |s.grants| && s.grants[k] == g;
    var i := IndexOf(s.grants, g.id);
  }

  // ---- what else is answered ---------------------------------------------

  /** The standing that goes with each code. */
  function StandingOf(code: ValidationCode): Currentness {
    match code
    case Current => IsCurrent
    case UnauthorizedScope => IsCurrent
    case RevalidationRequired => NeedsRevalidation
    case StaleWorkerBoot => IsFenced
    case StaleEpoch => IsStaleEpoch
    case Retired => IsRetired
    case Revoked => IsRevoked
    case UnknownParticipant => IsUnknown
    case UnknownGrant => IsUnknown
    case Malformed => IsUnknown
  }

  /** On either path the standing follows from the code; an answer about a live incarnation names it
      and the generation its participant is registered under; a stale epoch names the epoch there is. */
  lemma AnswerFields(o: Options, s: State, req: ValidateRequest)
    requires Inv(o, s)
    ensures var v := Validate(s, req);
            && v.currentness == StandingOf(v.code)
            && (v.code == Current || v.code == UnauthorizedScope ==>
                  && v.incarnation == Some(req.token.incarnation)
                  && Holder(s, req).Some? && Holder(s, req).value in s.participants
                  && v.registrationGeneration == Some(s.participants[Holder(s, req).value].registrationGeneration))
            && (v.code == StaleEpoch ==> v.replacedByEpoch == Some(s.epoch))
  {
    hide Inv, Evaluate;
    var holder := Holder(s, req);
    if holder.Some? && holder.value in s.participants && req.token.incarnation != 0 {
      Evaluated(o, s, holder.value, req.token.boot, req.token.incarnation);
    }
  }

  /** The request is judged by what its holder runs: not by a grant made out to another boot. */
  predicate JudgedByHolder(s: State, req: ValidateRequest, id: ParticipantId) {
    && Holder(s, req) == Some(id) && id in s.participants
    && (req.grant.Some? ==> forall g :: g in s.grants && g.id == req.grant.value ==> g.boot == req.token.boot)
  }

  predicate FencedAs(f: FenceRecord, id: ParticipantId, boot: Id) {
    f.participant == id && f.boot == boot
  }

  /** What goes with a stale boot. It is superseded by the boot its holder runs, unless it runs itself under
      another sequence or is known only to lie below the floor; a retained fence record dates it. */
  ghost predicate Supersedes(s: State, id: ParticipantId, boot: Id, claimed: U64, supersededBy: Option<Id>, epoch: Option<U64>)
    requires id in s.participants
  {
    var p := s.participants[id];
    && (supersededBy.Some? <==>
          !BootLive(p, boot) && !NothingLive(s, id) && (KnownFenced(s, id, boot) || claimed > p.incarnationFloor))
    && (supersededBy.Some? ==> supersededBy == Some(p.activeBoot) && BootLive(p, p.activeBoot))
    && (epoch.Some? <==> exists f :: f in s.fences && FencedAs(f, id, boot) && f.epoch != 0)
    && (epoch.Some? ==> exists f :: f in s.fences && FencedAs(f, id, boot) && f.epoch == epoch.value)
  }

  /** The incarnation named with it is the one the boot runs now, or the one its fence record has. */
  ghost predicate Names(s: State, id: ParticipantId, boot: Id, incarnation: Option<U64>)
    requires id in s.participants
  {
    && (incarnation.Some? <==>
          BootLive(s.participants[id], boot) || exists f :: f in s.fences && FencedAs(f, id, boot) && f.incarnation != 0)
    && (incarnation.Some? ==>
          || LiveIn(s, id, boot, incarnation.value)
          || exists f :: f in s.fences && FencedAs(f, id, boot) && f.incarnation == incarnation.value)
  }

  lemma RecordIsFound(o: Options, s: State, id: ParticipantId, boot: Id)
    requires Inv(o, s)
    ensures forall f :: f in s.fences && FencedAs(f, id, boot) ==> FindRecord(s.fences, id, boot) == Some(f)
  {
    hide ParticipantsOk, GrantsOk, TransitionsOk, ControlOk, SumsOk, IsForest, FindRecord;
    forall f | f in s.fences && FencedAs(f, id, boot)
      ensures FindRecord(s.fences, id, boot) == Some(f)
    {
      var i :| 0 <= i < |s.fences| && s.fences[i] == f;
      var r := FindRecord(s.fences, id, boot).value;
      var j :| 0 <= j < |s.fences| && s.fences[j] == r;
    }
  }

  lemma EvaluationExplains(o: Options, s: State, id: ParticipantId, boot: Id, claimed: U64)
    requires Inv(o, s) && id in s.participants && claimed != 0
    ensures var e := Evaluate(s, s.participants[id], boot, claimed);
            && (e.code == StaleWorkerBoot ==>
                  Supersedes(s, id, boot, claimed, e.supersededBy, e.replacedByEpoch) && Names(s, id, boot, e.incarnation))
            && (e.code != StaleWorkerBoot ==> e.supersededBy.None? && e.replacedByEpoch.None?)
  {
    hide Inv, FindRecord, FindIncarnation, BootLive, NothingLive, KnownFenced, IsLive;
    var p := s.participants[id];
    KnownLiveOk(o, s, id);
    SameId(o, s, id);
    FindsLive(p, boot);
    NothingLiveIff(o, s, id);
    KnownFencedIff(s, id, boot);
    RecordIsFound(o, s, id, boot);
    LiveBootFound(p, boot);
    if BootLive(p, boot) {
      LiveIsNotFenced(o, s, id, boot);
    }
  }

  lemma LiveBootFound(p: Participant, boot: Id)
    ensures FindIncarnation(p, boot).Some? ==> IsLive(p, boot, FindIncarnation(p, boot).value)
    ensures p.hasActiveBoot ==> BootLive(p, p.activeBoot)
  {
  }

  /** Every stale answer explains itself; one given because the grant is made out to another boot names that boot. */
  lemma StaleAnswerExplains(o: Options, s: State, req: ValidateRequest)
    requires Inv(o, s)
    ensures var v := Validate(s, req);
            && (forall id :: v.code == StaleWorkerBoot && JudgedByHolder(s, req, id) ==>
                  && Supersedes(s, id, req.token.boot, req.token.incarnation, v.supersededBy, v.replacedByEpoch)
                  && (if req.grant.None? then Names(s, id, req.token.boot, v.incarnation) else v.incarnation.None?))
            && (forall g :: v.code == StaleWorkerBoot && g in s.grants && req.grant == Some(g.id) && g.boot != req.token.boot ==>
                  v.supersededBy == Some(g.boot) && v.incarnation.None? && v.replacedByEpoch.None?)
            && (v.code != StaleWorkerBoot ==> v.supersededBy.None? && (v.code != StaleEpoch ==> v.replacedByEpoch.None?))
  {
    hide Inv, Evaluate, Supersedes, Names;
    var holder := Holder(s, req);
    if holder.Some? && holder.value in s.participants && req.token.incarnation != 0 {
      EvaluationExplains(o, s, holder.value, req.token.boot, req.token.incarnation);
    }
    forall g | g in s.grants && req.grant == Some(g.id)
      ensures IndexOf(s.grants, g.id).Some? && s.grants[IndexOf(s.grants, g.id).value] == g
    {
      FindsThatGrant(o, s, g);
    }
    if req.grant.Some? && IndexOf(s.grants, req.grant.value).Some? {
      assert s.grants[IndexOf(s.grants, req.grant.value).value] in s.grants;
    }
  }
}
