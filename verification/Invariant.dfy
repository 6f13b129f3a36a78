/** The invariant of the authority engine: what every operation keeps. */
module Invariant {
  import opened Basics
  import opened Model
  import opened Forest
  import opened Authority

  /** Limits the runtime accepts, configured within the structural ceilings. */
  predicate ViableOptions(o: Options) {
    && 0 < o.limits.maxParticipants <= MAX_RECORDS
    && 0 < o.limits.maxActiveWorkers <= o.limits.maxParticipants
    && 0 < o.limits.maxRecentFences <= MAX_RECORDS
    && 0 < o.limits.maxGrants <= MAX_RECORDS
    && 0 < o.limits.maxScopesPerGrant <= MAX_SCOPES
    && 0 < o.limits.maxTransitionHistory <= MAX_RECORDS
    && 0 < o.limits.maxIdempotencyRecords <= MAX_RECORDS
    && 0 < o.limits.maxFencedBoots <= MAX_RECORDS
    && 0 < o.limits.maxStringSize && 0 < o.limits.maxSessions
  }

  // ---- one participant ---------------------------------------------------

  predicate DistinctBoots(extras: seq<ActiveIncarnation>) {
    forall i, j :: 0 <= i < j < |extras| ==> extras[i].boot != extras[j].boot
  }

  predicate AmongExtras(extras: seq<ActiveIncarnation>, boot: Id) {
    exists i :: 0 <= i < |extras| && extras[i].boot == boot
  }

  /** Some live incarnation of the participant runs under this boot. */
  predicate BootLive(p: Participant, boot: Id) {
    (p.hasActiveBoot && p.activeBoot == boot) || AmongExtras(p.extras, boot)
  }

  /** One boot, one live incarnation; extras only beside an active boot; every live
      sequence was issued by the allocator; a single-incarnation participant has at
      most one. */
  predicate LiveOk(p: Participant) {
    && DistinctBoots(p.extras)
    && (p.hasActiveBoot ==> p.activeBoot != NIL && 0 < p.activeIncarnation < p.nextIncarnation)
    && (!p.hasActiveBoot ==> p.extras == [] && p.activeBoot == NIL && p.activeIncarnation == 0)
    && (forall i :: 0 <= i < |p.extras| ==>
          p.extras[i].boot != NIL && p.extras[i].boot != p.activeBoot && 0 < p.extras[i].sequence < p.nextIncarnation)
    && (p.policy == SingleIncarnation ==> p.extras == [])
    && (p.retired ==> !p.hasActiveBoot)
  }

  predicate DistinctIds(ids: seq<Id>) {
    forall i, j :: 0 <= i < j < |ids| ==> ids[i] != ids[j]
  }

  /** Live boots are disjoint from the retained fenced boots. */
  predicate RingOk(o: Options, p: Participant) {
    && |p.fencedBoots| <= o.limits.maxFencedBoots
    && DistinctIds(p.fencedBoots)
    && forall i :: 0 <= i < |p.fencedBoots| ==> p.fencedBoots[i] != NIL && !BootLive(p, p.fencedBoots[i])
  }

  predicate CountersOk(p: Participant, registrationFloor: U64, fenceFloor: U64) {
    && p.incarnationFloor < p.nextIncarnation
    && p.acceptedRegistrations == p.nextIncarnation - 1
    && p.registrationGeneration <= registrationFloor
    && p.fenceGeneration <= fenceFloor
  }

  /** Attempt identifiers in one table are pairwise distinct. */
  predicate TableOk(table: seq<AttemptRecord>, bound: nat) {
    && |table| <= bound
    && (forall i :: 0 <= i < |table| ==> table[i].attempt != NIL)
    && forall i, j :: 0 <= i < j < |table| ==> table[i].attempt != table[j].attempt
  }

  predicate ParticipantOk(o: Options, p: Participant, registrationFloor: U64, fenceFloor: U64) {
    && p.id.text != []
    && LiveOk(p)
    && RingOk(o, p)
    && CountersOk(p, registrationFloor, fenceFloor)
    && TableOk(p.idempotency, o.limits.maxIdempotencyRecords)
  }

  // ---- the whole state ---------------------------------------------------

  predicate ParticipantsOk(o: Options, s: State) {
    forall id :: id in s.participants ==>
      s.participants[id].id == id && ParticipantOk(o, s.participants[id], s.registrationFloor, s.fenceFloor)
  }

  predicate FenceOk(s: State, f: FenceRecord) {
    && f.boot != NIL && f.generation <= s.fenceFloor && f.epoch <= s.epoch
    && f.participant in s.participants
    && !BootLive(s.participants[f.participant], f.boot)
  }

  /** Retained fence generations strictly increase; no pair is fenced twice; nothing
      fenced is live. */
  predicate FencesOk(s: State) {
    && (forall i :: 0 <= i < |s.fences| ==> FenceOk(s, s.fences[i]))
    && (forall i, j :: 0 <= i < j < |s.fences| ==> s.fences[i].generation < s.fences[j].generation)
    && (forall i, j :: 0 <= i < j < |s.fences| ==>
          s.fences[i].boot != s.fences[j].boot || s.fences[i].participant != s.fences[j].participant)
  }

  predicate GrantOk(g: Grant, epoch: U64) {
    && g.id != NIL && g.boot != NIL && g.incarnation != 0 && g.epoch <= epoch
    && 0 < |g.scopes| <= MAX_SCOPES
    && (if g.revoked then g.revokedAtEpoch <= epoch else g.revokedAtEpoch == 0)
  }

  predicate GrantsOk(s: State) {
    && IsForest(s.grants)
    && forall i :: 0 <= i < |s.grants| ==> GrantOk(s.grants[i], s.epoch)
  }

  predicate TransitionsOk(s: State) {
    && |s.transitions| <= s.generation
    && (forall i :: 0 <= i < |s.transitions| ==>
          s.transitions[i].id != NIL && s.transitions[i].fromEpoch < s.transitions[i].toEpoch <= s.epoch)
    && forall i, j :: 0 <= i < j < |s.transitions| ==> s.transitions[i].id != s.transitions[j].id
  }

  predicate IsControl(r: AttemptRecord) {
    r.operation == AdvanceKind || r.operation == RevokeKind
  }

  predicate ControlOk(o: Options, s: State) {
    && TableOk(s.control, o.limits.maxIdempotencyRecords)
    && forall i :: 0 <= i < |s.control| ==> IsControl(s.control[i])
  }

  function Accepted(p: Participant): nat {
    p.acceptedRegistrations
  }

  /** Conservation: the registration floor counts every accepted registration, once. */
  ghost predicate SumsOk(o: Options, s: State) {
    && Total(s.participants, Accepted) == s.registrationFloor
    && Workers(s) <= o.limits.maxActiveWorkers
  }

  predicate CountsOk(o: Options, s: State) {
    && |s.participants| <= o.limits.maxParticipants
    && |s.fences| <= o.limits.maxRecentFences
    && |s.grants| <= o.limits.maxGrants
    && |s.transitions| <= o.limits.maxTransitionHistory
  }

  ghost predicate Inv(o: Options, s: State) {
    && ParticipantsOk(o, s)
    && FencesOk(s)
    && GrantsOk(s)
    && TransitionsOk(s)
    && ControlOk(o, s)
    && SumsOk(o, s)
    && CountsOk(o, s)
  }

  // ---- bounded histories -------------------------------------------------

  lemma RememberKeepsOrder<T>(table: seq<T>, bound: nat, record: T)
    requires bound > 0
    ensures var t := Remember(table, bound, record);
            && |t| > 0 && t[|t| - 1] == record
            && (|table| <= bound ==> |t| <= bound)
            && exists d :: 0 <= d <= |table| && t == table[d..] + [record]
  {
    var d := if |table| >= bound && |table| > 0 then 1 else 0;
    assert Remember(table, bound, record) == table[d..] + [record];
  }

  lemma RememberKeepsTable(table: seq<AttemptRecord>, bound: nat, record: AttemptRecord)
    requires bound > 0 && TableOk(table, bound)
    requires record.attempt != NIL && FindAttempt(table, record.attempt).None?
    ensures TableOk(Remember(table, bound, record), bound)
  {
    RememberKeepsOrder(table, bound, record);
  }

  // ---- the live set ------------------------------------------------------

  lemma FindsLive(p: Participant, boot: Id)
    ensures FindIncarnation(p, boot).Some? <==> BootLive(p, boot)
  {
  }

  lemma HeadOrTail(extras: seq<ActiveIncarnation>, boot: Id, sequence: U64)
    requires extras != []
    ensures HoldsExtra(extras, boot, sequence) <==>
              (extras[0].boot == boot && extras[0].sequence == sequence) || HoldsExtra(extras[1..], boot, sequence)
    ensures AmongExtras(extras, boot) <==> extras[0].boot == boot || AmongExtras(extras[1..], boot)
  {
    assert forall i :: 1 <= i < |extras| ==> extras[i] == extras[1..][i - 1];
    assert forall i :: 0 <= i < |extras| - 1 ==> extras[1..][i] == extras[i + 1];
  }

  lemma {:induction false} WithoutHolds(extras: seq<ActiveIncarnation>, boot: Id, b: Id, q: U64)
    ensures HoldsExtra(Without(extras, boot), b, q) <==> HoldsExtra(extras, b, q) && b != boot
    ensures AmongExtras(Without(extras, boot), b) <==> AmongExtras(extras, b) && b != boot
  {
    if extras != [] {
      HeadOrTail(extras, b, q);
      WithoutHolds(extras[1..], boot, b, q);
      if extras[0].boot != boot {
        var r := Without(extras, boot);
        assert r[1..] == Without(extras[1..], boot);
        HeadOrTail(r, b, q);
      }
    }
  }

  lemma {:induction false} WithoutShape(extras: seq<ActiveIncarnation>, boot: Id)
    requires DistinctBoots(extras)
    ensures DistinctBoots(Without(extras, boot))
    ensures |Without(extras, boot)| == |extras| - (if AmongExtras(extras, boot) then 1 else 0)
  {
    if extras != [] {
      var tail := extras[1..];
      HeadOrTail(extras, boot, 0);
      WithoutShape(tail, boot);
      var rest := Without(tail, boot);
      if extras[0].boot == boot {
        assert !AmongExtras(tail, boot);
      } else {
        WithoutHolds(tail, boot, extras[0].boot, 0);
        assert !AmongExtras(tail, extras[0].boot);
        assert forall j :: 0 <= j < |rest| ==> rest[j].boot != extras[0].boot;
        assert Without(extras, boot) == [extras[0]] + rest;
      }
    }
  }

  lemma WithoutFacts(extras: seq<ActiveIncarnation>, boot: Id)
    requires DistinctBoots(extras)
    ensures DistinctBoots(Without(extras, boot))
    ensures |Without(extras, boot)| == |extras| - (if AmongExtras(extras, boot) then 1 else 0)
    ensures forall b, q :: HoldsExtra(Without(extras, boot), b, q) <==> HoldsExtra(extras, b, q) && b != boot
    ensures forall b :: AmongExtras(Without(extras, boot), b) <==> AmongExtras(extras, b) && b != boot
  {
    WithoutShape(extras, boot);
    forall b, q
      ensures HoldsExtra(Without(extras, boot), b, q) <==> HoldsExtra(extras, b, q) && b != boot
      ensures AmongExtras(Without(extras, boot), b) <==> AmongExtras(extras, b) && b != boot
    {
      WithoutHolds(extras, boot, b, q);
    }
  }

  /** Fencing a live boot removes that incarnation and no other. */
  lemma RemoveLiveFacts(p: Participant, boot: Id)
    requires LiveOk(p) && BootLive(p, boot)
    ensures LiveOk(RemoveLive(p, boot))
    ensures LiveCount(RemoveLive(p, boot)) == LiveCount(p) - 1
    ensures forall b :: BootLive(RemoveLive(p, boot), b) <==> BootLive(p, b) && b != boot
    ensures forall b, q :: IsLive(RemoveLive(p, boot), b, q) <==> IsLive(p, b, q) && b != boot
  {
    if p.hasActiveBoot && p.activeBoot == boot {
      if p.extras != [] {
        PromotionFacts(p);
      }
    } else {
      WithoutFacts(p.extras, boot);
      var r := Without(p.extras, boot);
      assert forall i :: 0 <= i < |r| ==> r[i] in p.extras;
    }
  }

  lemma PromotionFacts(p: Participant)
    requires LiveOk(p) && p.extras != []
    ensures var q := RemoveLive(p, p.activeBoot);
            && LiveOk(q)
            && (forall b :: BootLive(q, b) <==> BootLive(p, b) && b != p.activeBoot)
            && (forall b, n :: IsLive(q, b, n) <==> IsLive(p, b, n) && b != p.activeBoot)
  {
    var q := RemoveLive(p, p.activeBoot);
    assert forall i :: 1 <= i < |p.extras| ==> p.extras[i] == q.extras[i - 1];
    assert q.activeBoot == p.extras[0].boot;
    assert forall i :: 0 <= i < |q.extras| ==> q.extras[i] == p.extras[i + 1];
    forall b
      ensures BootLive(q, b) <==> BootLive(p, b) && b != p.activeBoot
    {
      assert AmongExtras(p.extras, b) <==> p.extras[0].boot == b || AmongExtras(q.extras, b);
    }
    forall b, n
      ensures IsLive(q, b, n) <==> IsLive(p, b, n) && b != p.activeBoot
    {
      assert HoldsExtra(p.extras, b, n) <==> (p.extras[0].boot == b && p.extras[0].sequence == n) || HoldsExtra(q.extras, b, n);
    }
  }

  /** With distinct boots, a live incarnation is exactly the one its boot finds. */
  lemma LiveIsFound(p: Participant, boot: Id, sequence: U64)
    requires LiveOk(p)
    ensures IsLive(p, boot, sequence) <==> FindIncarnation(p, boot) == Some(sequence)
  {
  }

  // ---- one participant is replaced ---------------------------------------

  /** The state after one participant record is replaced and floors move. */
  lemma ReplaceKeepsParticipants(o: Options, s: State, s': State, p: Participant)
    requires ParticipantsOk(o, s)
    requires s'.participants == s.participants[p.id := p]
    requires s'.registrationFloor >= s.registrationFloor && s'.fenceFloor >= s.fenceFloor
    requires ParticipantOk(o, p, s'.registrationFloor, s'.fenceFloor)
    ensures ParticipantsOk(o, s')
  {
  }

  /** Fence records stay valid when no boot they name becomes live. */
  lemma ReplaceKeepsFences(o: Options, s: State, s': State, p: Participant)
    requires FencesOk(s)
    requires s'.participants == s.participants[p.id := p] && s'.fences == s.fences
    requires s'.fenceFloor >= s.fenceFloor && s'.epoch >= s.epoch
    requires forall b :: BootLive(p, b) ==>
               (p.id in s.participants && BootLive(s.participants[p.id], b)) || !Recorded(s.fences, p.id, b)
    ensures FencesOk(s')
  {
    forall i | 0 <= i < |s'.fences|
      ensures FenceOk(s', s'.fences[i])
    {
      assert FenceOk(s, s.fences[i]);
      if s.fences[i].participant == p.id && BootLive(p, s.fences[i].boot) {
        assert Recorded(s.fences, p.id, s.fences[i].boot);
      }
    }
  }

  lemma ReplaceKeepsSums(o: Options, s: State, s': State, p: Participant)
    requires s'.participants == s.participants[p.id := p]
    ensures Total(s'.participants, Accepted) ==
              Total(s.participants, Accepted) + Accepted(p) - (if p.id in s.participants then Accepted(s.participants[p.id]) else 0)
    ensures Workers(s') ==
              Workers(s) + LiveCount(p) - (if p.id in s.participants then LiveCount(s.participants[p.id]) else 0)
  {
    TotalUpdate(s.participants, Accepted, p.id, p);
    TotalUpdate(s.participants, LiveCount, p.id, p);
  }

  /** Grants, transitions and control attempts that an operation does not touch stay valid. */
  lemma UntouchedHistories(o: Options, s: State, s': State)
    requires GrantsOk(s) && TransitionsOk(s) && ControlOk(o, s)
    requires s'.grants == s.grants && s'.transitions == s.transitions && s'.control == s.control
    requires s'.epoch == s.epoch && s'.generation >= s.generation
    ensures GrantsOk(s') && TransitionsOk(s') && ControlOk(o, s')
  {
  }

  /** Appending a fence for a pair that is neither retained nor live keeps the records in order. */
  lemma AppendKeepsFences(s: State, s': State, d: nat, f: FenceRecord)
    requires FencesOk(s) && d <= |s.fences| && s'.fences == s.fences[d..] + [f]
    requires s'.fenceFloor > s.fenceFloor && s'.epoch == s.epoch
    requires s'.participants.Keys >= s.participants.Keys && f.participant in s'.participants
    requires f.boot != NIL && f.generation == s'.fenceFloor && f.epoch == s.epoch
    requires !Recorded(s.fences, f.participant, f.boot) && !BootLive(s'.participants[f.participant], f.boot)
    requires forall id, b :: id in s.participants && BootLive(s'.participants[id], b) ==> BootLive(s.participants[id], b)
    ensures FencesOk(s')
  {
    assert forall i :: 0 <= i < |s'.fences| - 1 ==> s'.fences[i] == s.fences[i + d];
    forall i | 0 <= i < |s'.fences|
      ensures FenceOk(s', s'.fences[i])
    {
      if i < |s'.fences| - 1 {
        assert FenceOk(s, s.fences[i + d]);
      }
    }
  }
}
