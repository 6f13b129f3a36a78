/** Each vector-level mutation carries out the abstract operation it stands for. */
module Refinement {
  import opened Basics
  import opened Model
  import opened Sorting
  import opened Forest
  import opened Authority
  import opened Canonical
  import opened Indexes
  import opened Undoing


  lemma CanonicalizedRefines(d: DurableState)
    requires DistinctParticipants(d.participants)
    ensures var c := Canonicalized(d);
            SortedById(c.participants) && DistinctParticipants(c.participants) && Abs(c) == Abs(d)
    ensures SumLive(Canonicalized(d).participants) == SumLive(d.participants)
  {
    hide ToMap, DistinctParticipants;
    var c := Canonicalized(d);
    IdLessIsStrict();
    DistinctIsComparable(d.participants);
    SortOrders(d.participants, IdLess);
    SortedIsDistinct(c.participants);
    ToMapPermutation(d.participants, c.participants);
    SumLiveIsTotal(d.participants);
    SumLiveIsTotal(c.participants);
  }

  /** Replacing one record under its own identifier. */
  lemma InPlaceRefines(d: DurableState, i: nat, p: Participant)
    requires DistinctParticipants(d.participants) && i < |d.participants| && p.id == d.participants[i].id
    ensures var e := d.(participants := d.participants[i := p]);
            DistinctParticipants(e.participants) && Abs(e) == Abs(d).(participants := Abs(d).participants[p.id := p])
    ensures ParticipantIndex(d.participants[i := p]) == ParticipantIndex(d.participants)
    ensures SumLive(d.participants[i := p]) == SumLive(d.participants) - LiveCount(d.participants[i]) + LiveCount(p)
  {
    hide ToMap, DistinctParticipants, LiveCount, SumLive, ParticipantIndex;
    var ps := d.participants;
    ToMapUpdate(ps, i, p);
    ParticipantIndexInPlace(ps, ps[i := p]);
    SumLiveIsTotal(ps);
    SumLiveIsTotal(ps[i := p]);
    ToMapFacts(ps);
    TotalUpdate(ToMap(ps), LiveCount, p.id, p);
  }

  lemma AppendRefines(d: DurableState, p: Participant)
    requires DistinctParticipants(d.participants) && p.id !in ToMap(d.participants)
    ensures var e := d.(participants := d.participants + [p]);
            DistinctParticipants(e.participants) && Abs(e) == Abs(d).(participants := Abs(d).participants[p.id := p])
    ensures ParticipantIndex(d.participants + [p]) == ParticipantIndex(d.participants)[p.id := |d.participants|]
    ensures SumLive(d.participants + [p]) == SumLive(d.participants) + LiveCount(p)
  {
    hide ToMap, DistinctParticipants, LiveCount;
    var ps := d.participants;
    ToMapAppend(ps, p);
    assert (ps + [p])[..|ps|] == ps;
  }

  lemma Member(d: DurableState, i: nat)
    requires DistinctParticipants(d.participants) && i < |d.participants|
    ensures var p := d.participants[i]; p.id in Abs(d).participants && Abs(d).participants[p.id] == p
  {
    hide ToMap, DistinctParticipants;
    ToMapFacts(d.participants);
  }

  lemma FenceAtRefines(o: Options, d: DurableState, i: nat, boot: Id, sequence: U64, reason: FenceReason, note: Bytes)
    requires DistinctParticipants(d.participants) && i < |d.participants| && d.fenceFloor < U64_MAX && d.generation < U64_MAX
    ensures var e := FenceAt(o, d, i, boot, sequence, reason, note);
            var id := d.participants[i].id;
            && DistinctParticipants(e.participants) && id in Abs(d).participants
            && Abs(e) == LiveFence(o, Abs(d), id, boot, sequence, reason, note)
            && |e.participants| == |d.participants| && e.participants[i].id == id
            && ParticipantIndex(e.participants) == ParticipantIndex(d.participants)
            && SumLive(e.participants) == SumLive(d.participants) - LiveCount(d.participants[i]) + LiveCount(e.participants[i])
  {
    hide ToMap, DistinctParticipants, FencedParticipant, Remember, LiveCount, SumLive, ParticipantIndex;
    var p := d.participants[i];
    FencedKeepsId(o, p, boot, sequence, d.fenceFloor + 1);
    Member(d, i);
    InPlaceRefines(d, i, FencedParticipant(o, p, boot, sequence, d.fenceFloor + 1));
  }

  lemma PreventAtRefines(d: DurableState, i: nat, boot: Id, reason: FenceReason, note: Bytes)
    requires DistinctParticipants(d.participants) && i < |d.participants| && d.fenceFloor < U64_MAX && d.generation < U64_MAX
    ensures var e := PreventAt(d, i, boot, reason, note);
            var id := d.participants[i].id;
            && DistinctParticipants(e.participants) && id in Abs(d).participants
            && Abs(e) == PreventiveFence(Abs(d), id, boot, reason, note)
            && |e.participants| == |d.participants| && e.participants[i].id == id
            && ParticipantIndex(e.participants) == ParticipantIndex(d.participants)
            && SumLive(e.participants) == SumLive(d.participants)
  {
    hide ToMap, DistinctParticipants, SumLive, ParticipantIndex;
    var p := d.participants[i];
    Member(d, i);
    InPlaceRefines(d, i, p.(fenceGeneration := d.fenceFloor + 1));
  }

  lemma RememberAtRefines(o: Options, d: DurableState, i: nat, record: AttemptRecord)
    requires DistinctParticipants(d.participants) && i < |d.participants|
    ensures var e := RememberAt(o, d, i, record);
            var id := d.participants[i].id;
            && DistinctParticipants(e.participants) && id in Abs(d).participants
            && Abs(e) == RememberFor(o, Abs(d), id, record)
            && ParticipantIndex(e.participants) == ParticipantIndex(d.participants)
            && SumLive(e.participants) == SumLive(d.participants)
  {
    hide ToMap, DistinctParticipants, SumLive, ParticipantIndex, Remember;
    var p := d.participants[i];
    Member(d, i);
    InPlaceRefines(d, i, p.(idempotency := Remember(p.idempotency, o.limits.maxIdempotencyRecords, record)));
  }

  lemma EnrolledLive(o: Options, p: Participant, req: RegisterRequest, g: U64)
    requires p.nextIncarnation < U64_MAX
    ensures LiveCount(Enrolled(o, p, req, g)) == LiveCount(p) + 1
  {
  }

  lemma EnrolAtRefines(o: Options, d: DurableState, i: nat, req: RegisterRequest, commit: bool)
    requires DistinctParticipants(d.participants) && i <= |d.participants| && d.registrationFloor < U64_MAX
    requires commit ==> d.generation < U64_MAX
    requires if i < |d.participants| then d.participants[i].nextIncarnation < U64_MAX && d.participants[i].id == req.participant
             else req.participant !in Abs(d).participants
    ensures ParticipantOrFresh(Abs(d), req) == if i < |d.participants| then d.participants[i] else FreshParticipant(req.participant, req.policy)
    ensures var e := EnrolAt(o, d, i, req, commit);
            && DistinctParticipants(e.participants)
            && Abs(e) == Enrol(o, Abs(d), req, commit)
            && ParticipantIndex(e.participants) == ParticipantIndex(d.participants)[req.participant := i]
            && SumLive(e.participants) == SumLive(d.participants) + 1
  {
    hide ToMap, DistinctParticipants, SumLive, ParticipantIndex, Enrolled, LiveCount;
    if i < |d.participants| {
      Member(d, i);
      var p := Enrolled(o, d.participants[i], req, d.registrationFloor + 1);
      EnrolledKeepsId(o, d.participants[i], req, d.registrationFloor + 1);
      EnrolledLive(o, d.participants[i], req, d.registrationFloor + 1);
      InPlaceRefines(d, i, p);
      IndexAt(d.participants, i);
    } else {
      var unborn := FreshParticipant(req.participant, req.policy);
      EnrolledKeepsId(o, unborn, req, d.registrationFloor + 1);
      EnrolledLive(o, unborn, req, d.registrationFloor + 1);
      FreshHasNone(req);
      AppendRefines(d, Enrolled(o, unborn, req, d.registrationFloor + 1));
    }
  }

  lemma FreshHasNone(req: RegisterRequest)
    ensures LiveCount(FreshParticipant(req.participant, req.policy)) == 0
  {
  }

  lemma IndexAt(ps: seq<Participant>, i: nat)
    requires DistinctParticipants(ps) && i < |ps|
    ensures ps[i].id in ParticipantIndex(ps) && ParticipantIndex(ps)[ps[i].id] == i
    ensures ParticipantIndex(ps)[ps[i].id := i] == ParticipantIndex(ps)
  {
    hide ToMap;
    ToMapFacts(ps);
    ParticipantIndexFinds(ps, ps[i].id);
  }

  lemma RevokeAtRefines(o: Options, d: DurableState, t: nat, req: RevokeRequest, derived: nat)
    requires DistinctParticipants(d.participants) && t < |d.grants| && d.generation < U64_MAX
    requires derived == |NewlyRevoked(d.grants, t)| - 1
    ensures var record := AttemptRecord(req.attempt, RevokeKind, o.digest(Revoking(req)), 0, d.generation + 1, derived % (U64_MAX + 1), NIL);
            var e := RevokeAt(o, d, t, record);
            && e.participants == d.participants
            && Abs(e) == RevokeTree(o, Abs(d), req, t)
  {
    hide ToMap, DistinctParticipants, RevokeSubtree, NewlyRevoked, Remember;
  }

  lemma AdvanceAtRefines(o: Options, d: DurableState, boot: Id, cause: TransitionCause, invalidate: bool, transition: Id)
    requires DistinctParticipants(d.participants) && d.epoch < U64_MAX && d.generation < U64_MAX
    ensures var e := AdvanceAt(o, d, boot, cause, invalidate, transition);
            && DistinctParticipants(e.participants)
            && Abs(e) == MutateEpoch(o, Abs(d), boot, cause, invalidate, transition)
  {
    hide ToMap, DistinctParticipants, Remember;
    var ps := d.participants;
    var qs := InvalidateEach(ps);
    assert DistinctParticipants(qs) by {
      SameIdsDistinct(ps, qs);
    }
    ToMapFacts(ps);
    ToMapFacts(qs);
    var m := InvalidateAll(ToMap(ps));
    forall i | 0 <= i < |qs|
      ensures qs[i].id in m && m[qs[i].id] == qs[i]
    {
      assert ps[i].id == qs[i].id;
    }
    forall id | id in m
      ensures m[id].id == id && m[id] in qs
    {
      var k :| 0 <= k < |ps| && ps[k] == ToMap(ps)[id];
      assert qs[k] == m[id];
    }
    ToMapIs(qs, m);
  }

  lemma SameIdsDistinct(ps: seq<Participant>, qs: seq<Participant>)
    requires DistinctParticipants(ps) && |ps| == |qs| && forall i :: 0 <= i < |ps| ==> qs[i].id == ps[i].id
    ensures DistinctParticipants(qs)
  {
  }

  // ---- looking fences up through the index ------------------------------

  /** What the lookup through the indexes answers. */
  function IndexedLookup(d: DurableState, index: map<Id, seq<nat>>, i: nat, boot: Id): FenceLookup
    requires i < |d.participants|
  {
    var p := d.participants[i];
    var record := FirstListed(d.fences, Listed(index, boot), p.id);
    if record.Some? then FenceLookup(true, record) else FenceLookup(boot in p.fencedBoots, None)
  }

  /** The fence history is an older history, filed by the index, and later records of other boots. */
  ghost predicate IndexCovers(index: map<Id, seq<nat>>, fences: seq<FenceRecord>, boot: Id) {
    exists n :: 0 <= n <= |fences| && index == FenceIndex(fences[..n]) && forall k :: n <= k < |fences| ==> fences[k].boot != boot
  }

  lemma CoveringLookupAgrees(d: DurableState, index: map<Id, seq<nat>>, i: nat, boot: Id)
    requires DistinctParticipants(d.participants) && i < |d.participants| && IndexCovers(index, d.fences, boot)
    ensures IndexedLookup(d, index, i, boot) == LookupFence(Abs(d), d.participants[i].id, boot)
  {
    hide ToMap, DistinctParticipants, FenceIndex, FirstListed, FindRecord;
    Member(d, i);
    var n :| 0 <= n <= |d.fences| && index == FenceIndex(d.fences[..n]) && forall k :: n <= k < |d.fences| ==> d.fences[k].boot != boot;
    CoveringListAgrees(d.fences, n, d.participants[i].id, boot);
  }

  lemma CoveringListAgrees(fences: seq<FenceRecord>, n: nat, id: ParticipantId, boot: Id)
    requires n <= |fences| && forall k :: n <= k < |fences| ==> fences[k].boot != boot
    ensures FirstListed(fences, Listed(FenceIndex(fences[..n]), boot), id) == FindRecord(fences, id, boot)
  {
    var positions := Listed(FenceIndex(fences[..n]), boot);
    FenceIndexLists(fences[..n], boot);
    assert forall i :: 0 <= i < n ==> fences[..n][i] == fences[i];
    assert fences[0..] == fences;
    FirstListedIsFirst(fences, positions, id, boot, 0);
  }

  lemma WholeIndexCovers(fences: seq<FenceRecord>, boot: Id)
    ensures IndexCovers(FenceIndex(fences), fences, boot)
  {
    assert fences[..|fences|] == fences;
  }
}
