/** Retiring a participant through the fence index: each live boot is looked up in a history that
    the earlier fences of the same retirement have already shifted. */
module Retirement {
  import opened Basics
  import opened Model
  import opened Authority
  import opened Invariant
  import opened Preservation
  import opened Indexes
  import opened Stale

  /** Fences the listed boots one after the other, all through one index. */
  ghost function FenceEachThrough(o: Options, s: State, filed: seq<FenceRecord>, id: ParticipantId, boots: seq<Id>, note: Bytes): Step<nat> {
    if boots == [] then Done(s, 0, false)
    else
      match FenceEachThrough(o, s, filed, id, boots[..|boots| - 1], note)
      case Threw => Threw
      case Done(s1, count, mutated) =>
        match RecordFenceThrough(o, s1, filed, id, boots[|boots| - 1], AdministrativeRevoke, note, false)
        case Threw => Threw
        case Done(s2, fence, more) =>
          Done(s2, if fence.outcome == FenceDone || fence.outcome == AlreadyFenced then count + 1 else count, mutated || more)
  }

  /** The retirement as the runtime performs it. */
  ghost function RetireThrough(o: Options, s: State, req: RetireRequest): Step<RetireResult> {
    RetireGiven(o, s, req, FenceEachThrough(o, s, s.fences, req.participant, LiveBootsOf(s, req.participant), req.note))
  }

  /** The request passes every gate before the fences. */
  predicate Retires(s: State, req: RetireRequest) {
    && req.attempt != NIL && req.participant.text != [] && req.expectedEpoch == s.epoch && req.participant in s.participants
    && FindAttempt(s.participants[req.participant].idempotency, req.attempt).None?
    && !s.participants[req.participant].retired
  }

  // ---- the history after k fences ----------------------------------------

  /** How many records k more push out of a bounded history of n. */
  function Evicted(n: nat, k: nat, bound: nat): nat {
    if n + k > bound then n + k - bound else 0
  }

  /** Where the record at old position p went. */
  predicate MovedOnto(o: Options, fences: seq<FenceRecord>, id: ParticipantId, k: nat, p: nat) {
    var q := p + Evicted(|fences|, k, o.limits.maxRecentFences);
    if q < |fences| then fences[q].participant == id else q < |fences| + k
  }

  /** After k fences of the participant, a position filed under the boot holds one of its records:
      either an old one that moved there, or one of the k. */
  predicate Shifted(o: Options, fences: seq<FenceRecord>, id: ParticipantId, boot: Id, k: nat) {
    exists p :: 0 <= p < |fences| && fences[p].boot == boot && MovedOnto(o, fences, id, k, p)
  }

  /** Some live boot of the participant is looked up wrongly in the course of its retirement. A
      caller can tell from the history, the live boots and the bound. */
  predicate RetireMisjudged(o: Options, s: State, id: ParticipantId) {
    exists k :: 0 <= k < |LiveBootsOf(s, id)| && Shifted(o, s.fences, id, LiveBootsOf(s, id)[k], k)
  }

  /** The history is the old one and k records of the participant, cut to the bound from the front. */
  ghost predicate HistoryAfter(o: Options, fences: seq<FenceRecord>, now: seq<FenceRecord>, id: ParticipantId, k: nat) {
    exists own: seq<FenceRecord> ::
      && |own| == k && (forall i :: 0 <= i < k ==> own[i].participant == id)
      && Evicted(|fences|, k, o.limits.maxRecentFences) <= |fences| + k
      && now == (fences + own)[Evicted(|fences|, k, o.limits.maxRecentFences)..]
  }

  lemma HistoryGrows(o: Options, fences: seq<FenceRecord>, now: seq<FenceRecord>, id: ParticipantId, k: nat, record: FenceRecord)
    requires HistoryAfter(o, fences, now, id, k) && |fences| <= o.limits.maxRecentFences && o.limits.maxRecentFences > 0
    requires record.participant == id
    ensures HistoryAfter(o, fences, Remember(now, o.limits.maxRecentFences, record), id, k + 1)
  {
    var bound := o.limits.maxRecentFences;
    var own: seq<FenceRecord> :| |own| == k && (forall i :: 0 <= i < k ==> own[i].participant == id)
      && now == (fences + own)[Evicted(|fences|, k, bound)..];
    var more := own + [record];
    var all := fences + more;
    assert all == (fences + own) + [record];
    assert Remember(now, bound, record) == all[Evicted(|fences|, k + 1, bound)..];
  }

  lemma PointAt(o: Options, fences: seq<FenceRecord>, own: seq<FenceRecord>, now: seq<FenceRecord>, id: ParticipantId, p: nat)
    requires forall i :: 0 <= i < |own| ==> own[i].participant == id
    requires var d := Evicted(|fences|, |own|, o.limits.maxRecentFences);
             d <= |fences| + |own| && now == (fences + own)[d..]
    ensures p < |now| && now[p].participant == id <==> MovedOnto(o, fences, id, |own|, p)
  {
    var d := Evicted(|fences|, |own|, o.limits.maxRecentFences);
    if p < |now| {
      assert now[p] == (fences + own)[p + d];
    }
  }

  lemma PointsIff(o: Options, fences: seq<FenceRecord>, now: seq<FenceRecord>, id: ParticipantId, boot: Id, k: nat)
    requires HistoryAfter(o, fences, now, id, k)
    ensures Points(fences, now, id, boot) <==> Shifted(o, fences, id, boot, k)
  {
    hide MovedOnto;
    var d := Evicted(|fences|, k, o.limits.maxRecentFences);
    var own: seq<FenceRecord> :| |own| == k && (forall i :: 0 <= i < k ==> own[i].participant == id) && now == (fences + own)[d..];
    forall p: nat
      ensures p < |now| && now[p].participant == id <==> MovedOnto(o, fences, id, k, p)
    {
      PointAt(o, fences, own, now, id, p);
    }
  }

  // ---- judged retirements ------------------------------------------------

  lemma EvictsNothingYet(o: Options, fences: seq<FenceRecord>, id: ParticipantId)
    requires |fences| <= o.limits.maxRecentFences
    ensures HistoryAfter(o, fences, fences, id, 0)
  {
    assert (fences + [])[0..] == fences;
  }

  /** While live boots are fenced, the history is the old one shifted, and the next boot is live. */
  lemma {:induction false} HistoryOfFences(o: Options, s: State, id: ParticipantId, boots: seq<Id>, note: Bytes)
    requires ViableOptions(o) && Inv(o, s) && id in s.participants && DistinctIds(boots)
    requires forall i :: 0 <= i < |boots| ==> BootLive(s.participants[id], boots[i])
    ensures FenceEach(o, s, id, boots, note).Done? ==>
              HistoryAfter(o, s.fences, FenceEach(o, s, id, boots, note).state.fences, id, |boots|)
  {
    hide Inv, RecordFence, BootLive, HistoryAfter, ViableOptions;
    HistoryBounded(o, s);
    if boots == [] {
      EvictsNothingYet(o, s.fences, id);
    } else {
      var init, last := boots[..|boots| - 1], boots[|boots| - 1];
      HistoryOfFences(o, s, id, init, note);
      FenceEachKeeps(o, s, id, init, note);
      var before := FenceEach(o, s, id, init, note);
      if before.Done? {
        LiveFenceRecords(o, before.state, id, last, note);
        var step := RecordFence(o, before.state, id, last, AdministrativeRevoke, note, false);
        if step.Done? {
          var record: FenceRecord :| record.participant == id
            && step.state.fences == Remember(before.state.fences, o.limits.maxRecentFences, record);
          HistoryGrows(o, s.fences, before.state.fences, id, |init|, record);
        }
      }
    }
  }

  lemma HistoryBounded(o: Options, s: State)
    requires ViableOptions(o) && Inv(o, s)
    ensures |s.fences| <= o.limits.maxRecentFences && o.limits.maxRecentFences > 0
  {
  }

  lemma LiveFenceRecords(o: Options, s: State, id: ParticipantId, boot: Id, note: Bytes)
    requires ViableOptions(o) && Inv(o, s) && id in s.participants && BootLive(s.participants[id], boot)
    ensures var step := RecordFence(o, s, id, boot, AdministrativeRevoke, note, false);
            step.Done? ==> exists record: FenceRecord ::
              record.participant == id && step.state.fences == Remember(s.fences, o.limits.maxRecentFences, record)
  {
    hide Inv, LookupFence, FindIncarnation, BootLive, FencedParticipant, Remember;
    LiveIsNotFenced(o, s, id, boot);
    FindsLive(s.participants[id], boot);
  }

  /** Up to the first misread boot, the fences go as they should. */
  lemma {:induction false} JudgedFences(o: Options, s: State, id: ParticipantId, live: seq<Id>, n: nat, note: Bytes)
    requires ViableOptions(o) && Inv(o, s) && id in s.participants && live == LiveBoots(s.participants[id]) && n <= |live|
    requires forall k :: 0 <= k < n ==> !Shifted(o, s.fences, id, live[k], k)
    ensures FenceEachThrough(o, s, s.fences, id, live[..n], note) == FenceEach(o, s, id, live[..n], note)
    decreases n
  {
    hide Inv, RecordFence, RecordFenceThrough, BootLive, HistoryAfter, ViableOptions, Shifted, Points, LiveBoots, LiveOk;
    if n > 0 {
      JudgedFences(o, s, id, live, n - 1, note);
      assert live[..n][..n - 1] == live[..n - 1];
      var before := FenceEach(o, s, id, live[..n - 1], note);
      if before.Done? {
        NextIsLive(o, s, id, live, n - 1, note);
        MisreadIffShifted(o, s, id, live, n - 1, note);
        JudgedFence(o, before.state, s.fences, id, live[n - 1], AdministrativeRevoke, note);
      }
    }
  }

  lemma NextIsLive(o: Options, s: State, id: ParticipantId, live: seq<Id>, k: nat, note: Bytes)
    requires ViableOptions(o) && Inv(o, s) && id in s.participants && live == LiveBoots(s.participants[id]) && k < |live|
    ensures var before := FenceEach(o, s, id, live[..k], note);
            before.Done? ==>
              Inv(o, before.state) && id in before.state.participants && BootLive(before.state.participants[id], live[k])
  {
    hide Inv, FenceEach, BootLive, ViableOptions, LiveBoots, LiveOk;
    KnownLiveOk(o, s, id);
    LiveBootsAreLive(s.participants[id]);
    FenceEachKeeps(o, s, id, live[..k], note);
    assert live[k] !in live[..k];
  }

  /** The k-th boot is misread exactly when its old positions, shifted, hold records of the participant. */
  lemma MisreadIffShifted(o: Options, s: State, id: ParticipantId, live: seq<Id>, k: nat, note: Bytes)
    requires ViableOptions(o) && Inv(o, s) && id in s.participants && live == LiveBoots(s.participants[id]) && k < |live|
    requires FenceEach(o, s, id, live[..k], note).Done?
    ensures var now := FenceEach(o, s, id, live[..k], note).state;
            && (Misreads(now, s.fences, id, live[k]) <==> Shifted(o, s.fences, id, live[k], k))
            && (LookupThrough(now, s.fences, id, live[k]).fenced <==> Shifted(o, s.fences, id, live[k], k))
  {
    hide Inv, FenceEach, BootLive, ViableOptions, LiveBoots, LiveOk, HistoryAfter, Shifted, Points, LookupThrough, Misreads;
    NextIsLive(o, s, id, live, k, note);
    KnownLiveOk(o, s, id);
    LiveBootsAreLive(s.participants[id]);
    HistoryBounded(o, s);
    HistoryOfFences(o, s, id, live[..k], note);
    var now := FenceEach(o, s, id, live[..k], note).state;
    PointsIff(o, s.fences, now.fences, id, live[k], k);
    LiveMisreadIff(o, now, s.fences, id, live[k]);
  }

  // ---- misjudged retirements ---------------------------------------------

  /** Extra incarnations stand only beside an active one. */
  predicate Led(p: Participant) {
    p.extras != [] ==> p.hasActiveBoot
  }

  lemma RemovingKeepsOthers(o: Options, p: Participant, boot: Id, sequence: U64, g: U64, b: Id)
    requires BootLive(p, b) && b != boot && Led(p)
    ensures var p' := FencedParticipant(o, p, boot, sequence, g); BootLive(p', b) && Led(p')
  {
    if p.hasActiveBoot && p.activeBoot == boot {
      var i :| 0 <= i < |p.extras| && p.extras[i].boot == b;
      assert i > 0 ==> p.extras[1..][i - 1] == p.extras[i];
    } else if AmongExtras(p.extras, b) {
      var i :| 0 <= i < |p.extras| && p.extras[i].boot == b;
      assert p.extras[i] in Without(p.extras, boot);
    }
  }

  lemma FencingKeepsOthers(o: Options, s: State, filed: seq<FenceRecord>, id: ParticipantId, boot: Id, note: Bytes, b: Id)
    requires id in s.participants && BootLive(s.participants[id], b) && Led(s.participants[id]) && b != boot
    ensures var step := RecordFenceThrough(o, s, filed, id, boot, AdministrativeRevoke, note, false);
            step.Done? ==> id in step.state.participants && BootLive(step.state.participants[id], b) && Led(step.state.participants[id])
  {
    hide LookupThrough, FindIncarnation, FencedParticipant, Remember, BootLive, Led;
    var p := s.participants[id];
    if FindIncarnation(p, boot).Some? && s.fenceFloor < U64_MAX {
      RemovingKeepsOthers(o, p, boot, FindIncarnation(p, boot).value, s.fenceFloor + 1, b);
    }
    SameLiveUnder(p);
  }

  lemma SameLiveUnder(p: Participant)
    ensures forall g: U64, b: Id :: BootLive(p.(fenceGeneration := g), b) == BootLive(p, b)
    ensures forall g: U64 :: Led(p.(fenceGeneration := g)) == Led(p)
  {
  }

  /** The first misread boot is left live, and stays live through the rest of the retirement. */
  lemma {:induction false} MisreadStaysLive(o: Options, s: State, id: ParticipantId, live: seq<Id>, k: nat, n: nat, note: Bytes)
    requires ViableOptions(o) && Inv(o, s) && id in s.participants && live == LiveBoots(s.participants[id]) && k < n <= |live|
    requires (forall j :: 0 <= j < k ==> !Shifted(o, s.fences, id, live[j], j)) && Shifted(o, s.fences, id, live[k], k)
    ensures var step := FenceEachThrough(o, s, s.fences, id, live[..n], note);
            step.Done? ==>
              id in step.state.participants && BootLive(step.state.participants[id], live[k]) && Led(step.state.participants[id])
    decreases n
  {
    hide Inv, RecordFenceThrough, BootLive, ViableOptions, Shifted, LiveBoots, LiveOk, Led;
    assert live[..n][..n - 1] == live[..n - 1];
    if n == k + 1 {
      JudgedFences(o, s, id, live, k, note);
      var before := FenceEach(o, s, id, live[..k], note);
      if before.Done? {
        NextIsLive(o, s, id, live, k, note);
        MisreadIffShifted(o, s, id, live, k, note);
        MisreadChangesNothing(o, before.state, s.fences, id, live[k], note);
        LiveIsLed(o, before.state, id);
      }
    } else {
      MisreadStaysLive(o, s, id, live, k, n - 1, note);
      KnownLiveOk(o, s, id);
      LiveBootsAreLive(s.participants[id]);
      assert live[k] != live[n - 1];
      var before := FenceEachThrough(o, s, s.fences, id, live[..n - 1], note);
      if before.Done? {
        FencingKeepsOthers(o, before.state, s.fences, id, live[n - 1], note, live[k]);
      }
    }
  }

  lemma MisreadChangesNothing(o: Options, s: State, filed: seq<FenceRecord>, id: ParticipantId, boot: Id, note: Bytes)
    requires id in s.participants && LookupThrough(s, filed, id, boot).fenced
    ensures var step := RecordFenceThrough(o, s, filed, id, boot, AdministrativeRevoke, note, false);
            step.Done? && step.state == s && !step.mutated && step.result.outcome == AlreadyFenced
  {
    hide LookupThrough;
  }

  lemma LiveIsLed(o: Options, s: State, id: ParticipantId)
    requires Inv(o, s) && id in s.participants
    ensures Led(s.participants[id])
  {
    KnownLiveOk(o, s, id);
  }

  // ---- exactly -----------------------------------------------------------

  /** Retired, and yet holding an active incarnation: what no save lets through. */
  predicate RetiredAlive(s: State, id: ParticipantId) {
    id in s.participants && s.participants[id].retired && s.participants[id].hasActiveBoot
  }

  lemma JudgedRetirement(o: Options, s: State, req: RetireRequest)
    requires ViableOptions(o) && Inv(o, s) && (Retires(s, req) ==> !RetireMisjudged(o, s, req.participant))
    ensures RetireThrough(o, s, req) == Retire(o, s, req)
  {
    hide Inv, FenceEach, FenceEachThrough, ViableOptions, Shifted, LiveBoots, FindAttempt;
    if Retires(s, req) {
      var live := LiveBootsOf(s, req.participant);
      JudgedFences(o, s, req.participant, live, |live|, req.note);
      assert live[..|live|] == live;
    }
  }

  lemma MisjudgedRetirement(o: Options, s: State, req: RetireRequest)
    requires ViableOptions(o) && Inv(o, s) && Retires(s, req) && RetireMisjudged(o, s, req.participant)
    ensures var step := RetireThrough(o, s, req); step.Done? ==> step.mutated && RetiredAlive(step.state, req.participant)
  {
    hide Inv, FenceEachThrough, ViableOptions, Shifted, LiveBoots, FindAttempt, Remember;
    var id := req.participant;
    var live := LiveBootsOf(s, id);
    var k := FirstMisread(o, s, id, live);
    MisreadStaysLive(o, s, id, live, k, |live|, req.note);
    assert live[..|live|] == live;
  }

  /** The first live boot that is misread. */
  ghost function FirstMisread(o: Options, s: State, id: ParticipantId, live: seq<Id>): (k: nat)
    requires exists k :: 0 <= k < |live| && Shifted(o, s.fences, id, live[k], k)
    ensures k < |live| && Shifted(o, s.fences, id, live[k], k)
    ensures forall j :: 0 <= j < k ==> !Shifted(o, s.fences, id, live[j], j)
  {
    FirstFrom(o, s, id, live, 0)
  }

  ghost function FirstFrom(o: Options, s: State, id: ParticipantId, live: seq<Id>, from: nat): (k: nat)
    requires from <= |live| && exists k :: from <= k < |live| && Shifted(o, s.fences, id, live[k], k)
    ensures from <= k < |live| && Shifted(o, s.fences, id, live[k], k)
    ensures forall j :: from <= j < k ==> !Shifted(o, s.fences, id, live[j], j)
    decreases |live| - from
  {
    if Shifted(o, s.fences, id, live[from], from) then from else FirstFrom(o, s, id, live, from + 1)
  }

  /** Retirements, exactly: through the index a retirement is the one it should be if and only if no
      live boot is misread on the way; otherwise the participant is left retired and alive. */
  lemma RetireThroughIff(o: Options, s: State, req: RetireRequest)
    requires ViableOptions(o) && Inv(o, s) && Retires(s, req) && Retire(o, s, req).Done?
    ensures RetireThrough(o, s, req) == Retire(o, s, req) <==> !RetireMisjudged(o, s, req.participant)
    ensures RetireMisjudged(o, s, req.participant) && RetireThrough(o, s, req).Done? ==>
              RetiredAlive(RetireThrough(o, s, req).state, req.participant)
  {
    hide Inv, Retire, RetireThrough, ViableOptions, RetireMisjudged, Retires;
    if RetireMisjudged(o, s, req.participant) {
      MisjudgedRetirement(o, s, req);
      NotRetiredAlive(o, s, req);
    } else {
      JudgedRetirement(o, s, req);
    }
  }

  lemma NotRetiredAlive(o: Options, s: State, req: RetireRequest)
    requires ViableOptions(o) && Inv(o, s)
    ensures Retire(o, s, req).Done? ==> !RetiredAlive(Retire(o, s, req).state, req.participant)
  {
    hide Inv, Retire, ViableOptions;
    RetireKeeps(o, s, req);
    if Retire(o, s, req).Done? && req.participant in Retire(o, s, req).state.participants {
      KnownLiveOk(o, Retire(o, s, req).state, req.participant);
    }
  }

  /** With room in the history for every live boot, or a single live boot, nothing is misread. */
  lemma RoomIsJudged(o: Options, s: State, id: ParticipantId)
    requires ViableOptions(o) && Inv(o, s) && id in s.participants
    requires |LiveBootsOf(s, id)| <= 1 || |s.fences| + |LiveBootsOf(s, id)| <= o.limits.maxRecentFences + 1
    ensures !RetireMisjudged(o, s, id)
  {
    hide Inv, ViableOptions;
    HistoryBounded(o, s);
    KnownLiveOk(o, s, id);
    LiveBootsAreLive(s.participants[id]);
    forall k | 0 <= k < |LiveBootsOf(s, id)|
      ensures !Shifted(o, s.fences, id, LiveBootsOf(s, id)[k], k)
    {
      LiveIsNotFenced(o, s, id, LiveBootsOf(s, id)[k]);
    }
  }

  /** Nor when no live boot after the first occurs in the retained history. */
  lemma UnknownBootsAreJudged(o: Options, s: State, id: ParticipantId)
    requires ViableOptions(o) && Inv(o, s) && id in s.participants
    requires forall k, p :: 1 <= k < |LiveBootsOf(s, id)| && 0 <= p < |s.fences| ==> s.fences[p].boot != LiveBootsOf(s, id)[k]
    ensures !RetireMisjudged(o, s, id)
  {
    hide Inv, ViableOptions;
    HistoryBounded(o, s);
    KnownLiveOk(o, s, id);
    LiveBootsAreLive(s.participants[id]);
    if LiveBootsOf(s, id) != [] {
      LiveIsNotFenced(o, s, id, LiveBootsOf(s, id)[0]);
    }
  }
}
