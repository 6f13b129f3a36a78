/** What a request leaves behind when its save fails: the undo puts everything back but the memory of
    the attempt and what a full history has already forgotten. */
module Residue {
  import opened Basics
  import opened Model
  import opened Sorting
  import opened Forest
  import opened Authority
  import opened Canonical
  import opened Invariant
  import opened Undoing
  import opened Refinement
  import opened Settlement

  /** The state, but for one participant's attempt table. */
  function WithTable(d: DurableState, i: nat, table: seq<AttemptRecord>): DurableState
    requires i < |d.participants|
  {
    d.(participants := d.participants[i := d.participants[i].(idempotency := table)])
  }

  /** The state before the request, remembering its attempt, with the history of fences cut back to the
      length it had. */
  function Residual(o: Options, d: DurableState, i: nat, record: AttemptRecord, fences: seq<FenceRecord>): DurableState
    requires i < |d.participants|
  {
    WithTable(d, i, Remember(d.participants[i].idempotency, o.limits.maxIdempotencyRecords, record))
    .(fences := Resize(fences, |d.fences|))
  }

  /** The log takes `now` back to `d` whatever has become of the attempt table, and of the fences in a
      history of that length. */
  ghost predicate TakesBack(d: DurableState, now: DurableState, i: nat, log: seq<UndoAction>) {
    && i < |d.participants| && i < |now.participants| && |d.fences| <= |now.fences|
    && forall table, fences :: |fences| == |now.fences| ==>
         Rollback(WithTable(now, i, table).(fences := fences), log)
         == WithTable(d, i, table).(fences := Resize(fences, |d.fences|))
  }

  lemma NothingToTakeBack(d: DurableState, i: nat)
    requires i < |d.participants|
    ensures TakesBack(d, d, i, [])
  {
  }

  lemma SameNames(d: DurableState, d': DurableState, i: nat)
    requires DistinctParticipants(d.participants) && i < |d.participants| && i < |d'.participants|
    requires d'.participants == d.participants[i := d'.participants[i]] && d'.participants[i].id == d.participants[i].id
    ensures DistinctParticipants(d'.participants)
  {
  }

  /** Undoing one fence, whatever has become of the table and of the fences. */
  lemma FenceTakenBack(o: Options, now: DurableState, now': DurableState, i: nat, boot: Id, reason: FenceReason, note: Bytes,
                       log: seq<UndoAction>, table: seq<AttemptRecord>, fences: seq<FenceRecord>)
    requires FenceApplied(o, now, now', i, boot, reason, note, log) && DistinctParticipants(now.participants)
    requires |fences| == |now'.fences|
    ensures |now.fences| <= |now'.fences| && i < |now'.participants|
    ensures Rollback(WithTable(now', i, table).(fences := fences), log)
            == WithTable(now, i, table).(fences := Resize(fences, |now.fences|))
  {
    hide DistinctParticipants, Rollback, PositionOf, FindIncarnation, FencedParticipant, UnfencedFields;
    var p, sequence := now.participants[i], FindIncarnation(now.participants[i], boot);
    var c := WithTable(now', i, table).(fences := fences);
    if sequence.Some? {
      FencedKeepsId(o, p, boot, sequence.value, now.fenceFloor + 1);
      UnfencedTable(o, p, boot, sequence.value, now.fenceFloor + 1, table);
    }
    SameNames(now, c, i);
    PositionIs(c.participants, i);
    RollbackPair(c, log[0], log[1]);
    assert c.participants[i := p.(idempotency := table)] == now.participants[i := p.(idempotency := table)];
  }

  lemma UnfencedTable(o: Options, p: Participant, boot: Id, sequence: U64, g: U64, table: seq<AttemptRecord>)
    ensures UnfencedFields(FencedParticipant(o, p, boot, sequence, g).(idempotency := table), p) == p.(idempotency := table)
  {
  }

  lemma OneMoreTakenBack(o: Options, d: DurableState, now: DurableState, now': DurableState, i: nat, boot: Id, reason: FenceReason,
                         note: Bytes, log: seq<UndoAction>, more: seq<UndoAction>)
    requires TakesBack(d, now, i, log) && FenceApplied(o, now, now', i, boot, reason, note, more) && DistinctParticipants(now.participants)
    ensures TakesBack(d, now', i, log + more)
  {
    hide DistinctParticipants, Rollback, FenceApplied;
    FenceTakenBack(o, now, now', i, boot, reason, note, more, [], now'.fences);
    forall table, fences | |fences| == |now'.fences|
      ensures Rollback(WithTable(now', i, table).(fences := fences), log + more)
              == WithTable(d, i, table).(fences := Resize(fences, |d.fences|))
    {
      RollbackInTwo(WithTable(now', i, table).(fences := fences), log, more);
      FenceTakenBack(o, now, now', i, boot, reason, note, more, table, fences);
      assert Resize(Resize(fences, |now.fences|), |d.fences|) == Resize(fences, |d.fences|);
    }
  }

  lemma FencedInPlace(o: Options, d: DurableState, d1: DurableState, i: nat, boot: Id, reason: FenceReason, note: Bytes,
                      log: seq<UndoAction>)
    requires FenceApplied(o, d, d1, i, boot, reason, note, log)
    ensures i < |d.participants| && i < |d1.participants| && d1.participants == d.participants[i := d1.participants[i]]
    ensures d1.participants[i].id == d.participants[i].id && d1.participants[i].idempotency == d.participants[i].idempotency
  {
    hide FencedParticipant, FindIncarnation;
    var sequence := FindIncarnation(d.participants[i], boot);
    if sequence.Some? {
      FencedKeepsId(o, d.participants[i], boot, sequence.value, d.fenceFloor + 1);
      FencedKeepsTable(o, d.participants[i], boot, sequence.value, d.fenceFloor + 1);
    }
  }

  // ---- the requests ------------------------------------------------------

  /** A failed operator fence. */
  lemma FenceResidue(o: Options, d: DurableState, d1: DurableState, i: nat, boot: Id, reason: FenceReason, note: Bytes,
                     log: seq<UndoAction>, record: AttemptRecord)
    requires SortedById(d.participants) && FenceApplied(o, d, d1, i, boot, reason, note, log)
    ensures i < |d.participants| && i < |d1.participants|
    ensures Rollback(Canonicalized(RememberAt(o, d1, i, record)), log) == Residual(o, d, i, record, d1.fences)
  {
    hide DistinctParticipants, SortedById, Rollback, FenceApplied, Remember, Canonicalized;
    SortedIsDistinct(d.participants);
    FencedInPlace(o, d, d1, i, boot, reason, note, log);
    InPlaceStaysSorted(d.participants, i, d1.participants[i]);
    var d2 := RememberAt(o, d1, i, record);
    InPlaceStaysSorted(d1.participants, i, d2.participants[i]);
    CanonicalizedSorted(d2);
    NothingToTakeBack(d, i);
    OneMoreTakenBack(o, d, d, d1, i, boot, reason, note, [], log);
    assert [] + log == log;
    assert d2 == WithTable(d1, i, d2.participants[i].idempotency).(fences := d1.fences);
  }

  /** A lost session whose fence failed to save: no attempt, so nothing but what a full history forgot. */
  lemma LostSessionResidue(o: Options, d: DurableState, d1: DurableState, i: nat, boot: Id, reason: FenceReason, log: seq<UndoAction>)
    requires SortedById(d.participants) && FenceApplied(o, d, d1, i, boot, reason, [], log)
    ensures Rollback(Canonicalized(d1), log) == d.(fences := Resize(d1.fences, |d.fences|))
  {
    hide DistinctParticipants, SortedById, Rollback, FenceApplied, Canonicalized, Resize;
    SortedIsDistinct(d.participants);
    FencedInPlace(o, d, d1, i, boot, reason, [], log);
    InPlaceStaysSorted(d.participants, i, d1.participants[i]);
    CanonicalizedSorted(d1);
    var table := d.participants[i].idempotency;
    FenceTakenBack(o, d, d1, i, boot, reason, [], log, table, d1.fences);
    assert WithTable(d1, i, table).(fences := d1.fences) == d1;
    assert d.participants[i := d.participants[i].(idempotency := table)] == d.participants;
  }

  /** A failed retirement, its fences included. */
  lemma RetirementResidue(o: Options, d: DurableState, now: DurableState, i: nat, record: AttemptRecord, log: seq<UndoAction>)
    requires SortedById(d.participants) && SameTables(d.participants, now.participants) && TakesBack(d, now, i, log)
    requires now.generation < U64_MAX && i < |d.participants| && i < |now.participants|
    ensures Rollback(Canonicalized(RetireAt(o, now, i, record)), log + [UndoRetire(now.participants[i]), UndoGeneration(now.generation)])
            == Residual(o, d, i, record, now.fences)
  {
    hide DistinctParticipants, SortedById, Rollback, Remember, Canonicalized, TakesBack, PositionOf;
    var p := now.participants[i];
    var d1 := RetireAt(o, now, i, record);
    SameTablesSorted(d.participants, now.participants);
    InPlaceStaysSorted(now.participants, i, d1.participants[i]);
    CanonicalizedSorted(d1);
    SortedIsDistinct(d1.participants);
    PositionIs(d1.participants, i);
    var last := [UndoRetire(p), UndoGeneration(now.generation)];
    RollbackInTwo(d1, log, last);
    RollbackPair(d1, last[0], last[1]);
    var table := d1.participants[i].idempotency;
    assert d1.participants[i := p.(idempotency := table)] == now.participants[i := p.(idempotency := table)];
    assert Rollback(d1, last) == WithTable(now, i, table).(fences := now.fences);
    TakesBackAt(d, now, i, log, table);
  }

  lemma TakesBackAt(d: DurableState, now: DurableState, i: nat, log: seq<UndoAction>, table: seq<AttemptRecord>)
    requires TakesBack(d, now, i, log)
    ensures Rollback(WithTable(now, i, table).(fences := now.fences), log)
            == WithTable(d, i, table).(fences := Resize(now.fences, |d.fences|))
  {
    hide Rollback;
  }

  /** A failed grant: only the memory of the attempt stays. */
  lemma GrantResidue(o: Options, d: DurableState, i: nat, g: Grant, record: AttemptRecord)
    requires SortedById(d.participants) && i < |d.participants| && d.generation < U64_MAX
    ensures Rollback(Canonicalized(GrantAt(o, d, i, g, record)), GrantLog(d)) == RememberAt(o, d, i, record)
  {
    hide SortedById, Rollback, Remember, Canonicalized;
    var d1 := GrantAt(o, d, i, g, record);
    InPlaceStaysSorted(d.participants, i, d1.participants[i]);
    CanonicalizedSorted(d1);
    RollbackPair(d1, GrantLog(d)[0], GrantLog(d)[1]);
    assert (d.grants + [g])[..|d.grants|] == d.grants;
  }

  /** A failed advance: the memory of the attempt stays, and what a full history of transitions forgot. */
  lemma AdvanceResidue(o: Options, d: DurableState, cause: TransitionCause, transition: Id, record: AttemptRecord)
    requires d.epoch < U64_MAX && d.generation < U64_MAX
    ensures var d1 := AdvanceAt(o, d, d.coordinatorBoot, cause, true, transition);
            var control := Remember(d.control, o.limits.maxIdempotencyRecords, record);
            Rollback(Canonicalized(d1.(control := control)), EpochLog(d))
            == d.(control := control, transitions := Resize(d1.transitions, |d.transitions|))
  {
    hide Canonicalized, InvalidateEach, Remember;
    var d1 := AdvanceAt(o, d, d.coordinatorBoot, cause, true, transition);
    var c := Canonicalized(d1.(control := Remember(d.control, o.limits.maxIdempotencyRecords, record)));
    var a := EpochLog(d)[0];
    CanonicalizedTouchesRecords(d1.(control := Remember(d.control, o.limits.maxIdempotencyRecords, record)));
    assert EpochLog(d)[..0] == [];
    assert Rollback(c, EpochLog(d)) == Rollback(UndoOne(c, a), []) == UndoOne(c, a);
  }

  lemma CanonicalizedTouchesRecords(d: DurableState)
    ensures Canonicalized(d) == d.(participants := Canonicalized(d).participants)
  {
  }

  /** A failed revocation: the whole subtree is unrevoked, and the control table is as long as it was. */
  lemma RevocationResidue(o: Options, d: DurableState, t: nat, record: AttemptRecord)
    requires SortedById(d.participants) && t < |d.grants| && d.generation < U64_MAX
    requires UniqueIds(d.grants) && Unmarked(d.grants) && !d.grants[t].revoked
    ensures var d1 := RevokeAt(o, d, t, record);
            Rollback(Canonicalized(d1), RevokeLog(d, t))
            == d.(control := Resize(d1.control, |d.control|), grants := RestoreSubtree(d.grants, t))
  {
    hide Remember, Resize, RevokeSubtree, SortedById, UniqueIds, Unmarked, Rollback, UndoRevocation;
    var d1 := RevokeAt(o, d, t, record);
    CanonicalizedSorted(d1);
    RollbackPair(d1, RevokeLog(d, t)[0], RevokeLog(d, t)[1]);
    SubtreeRevived(d, t, d1.grants);
  }

  lemma SubtreeRevived(d: DurableState, t: nat, after: seq<Grant>)
    requires UniqueIds(d.grants) && Unmarked(d.grants) && t < |d.grants| && !d.grants[t].revoked && d.generation < U64_MAX
    requires var swept := RevokeSubtree(d.grants, t, d.epoch); after == swept[t := swept[t].(generation := d.generation + 1)]
    ensures UndoRevocation(after, d.grants[t].id, d.grants[t].generation, d.grants[t].revokedAtEpoch) == RestoreSubtree(d.grants, t)
  {
    hide IndexOf;
    var g := d.grants[t];
    SameParents(d.grants, after, g.id);
    OnlyIndex(d.grants, t);
    var undone, revived := UndoRevocation(after, g.id, g.generation, g.revokedAtEpoch), RestoreSubtree(d.grants, t);
    forall i | 0 <= i < |d.grants|
      ensures undone[i] == revived[i]
    {
      SameDescent(d.grants, after, i, t);
    }
  }

  /** A failed registration: a known participant is as it was; of a new one, whichever record sorts last is
      gone; and the fences are as many as they were. */
  lemma RegistrationResidue(o: Options, d: DurableState, d1: DurableState, req: RegisterRequest, replaced: Option<Id>,
                            log: seq<UndoAction>)
    requires SortedById(d.participants) && RegistrationApplied(o, d, d1, req, true, replaced, log)
    requires replaced.Some? ==>
               var i := Place(d.participants, req.participant);
               i < |d.participants| && FindIncarnation(d.participants[i], replaced.value).Some?
    ensures var c, n := Canonicalized(d1), |d.participants|;
            && |c.participants| >= n
            && Rollback(c, log) ==
               d.(participants := if Place(d.participants, req.participant) < n then d.participants else c.participants[..n],
                  fences := Resize(c.fences, |d.fences|))
  {
    hide DistinctParticipants, SortedById, Canonicalized, Rollback, EnrolAt, FenceAt, EnrolLog, FenceLog, FenceApplied, FindIncarnation;
    var i := Place(d.participants, req.participant);
    SortedIsDistinct(d.participants);
    if replaced.Some? {
      var fenced, first :|
        && FenceApplied(o, d, fenced, i, replaced.value, Reincarnation, [], first)
        && i == Place(fenced.participants, req.participant)
        && CountersLeft(fenced, req.participant, true) && d1 == EnrolAt(o, fenced, i, req, true)
        && log == first + EnrolLog(fenced, i, true);
      FencedInPlace(o, d, fenced, i, replaced.value, Reincarnation, [], first);
      ReplacementResidue(o, d, fenced, i, replaced.value, first, req);
    } else if i < |d.participants| {
      UpdateRollback(o, d, i, req, true);
      EnrolKeepsFences(o, d, i, req);
    } else {
      CreationResidue(o, d, req);
      EnrolKeepsFences(o, d, i, req);
    }
  }

  lemma EnrolKeepsFences(o: Options, d: DurableState, i: nat, req: RegisterRequest)
    requires i <= |d.participants| && d.registrationFloor < U64_MAX && d.generation < U64_MAX
    requires i < |d.participants| ==> d.participants[i].nextIncarnation < U64_MAX
    ensures var c := Canonicalized(EnrolAt(o, d, i, req, true));
            c.fences == d.fences && |c.participants| >= |d.participants| && Resize(c.fences, |d.fences|) == d.fences
  {
  }

  lemma CreationResidue(o: Options, d: DurableState, req: RegisterRequest)
    requires d.registrationFloor < U64_MAX && d.generation < U64_MAX
    ensures var n := |d.participants|;
            var c := Canonicalized(EnrolAt(o, d, n, req, true));
            && |c.participants| == n + 1
            && Rollback(c, EnrolLog(d, n, true)) == d.(participants := c.participants[..n])
  {
    hide Enrolled, Rollback;
    var c := Canonicalized(EnrolAt(o, d, |d.participants|, req, true));
    assert |c.participants| == |d.participants| + 1;
    UndoCreationIs(c, d, true);
  }

  lemma ReplacementResidue(o: Options, d: DurableState, fenced: DurableState, i: nat, incumbent: Id, first: seq<UndoAction>, req: RegisterRequest)
    requires SortedById(d.participants) && FenceApplied(o, d, fenced, i, incumbent, Reincarnation, [], first)
    requires i < |d.participants| && i == Place(fenced.participants, req.participant) && CountersLeft(fenced, req.participant, true)
    requires i < |fenced.participants|
    ensures var c := Canonicalized(EnrolAt(o, fenced, i, req, true));
            && |c.participants| >= |d.participants|
            && Rollback(c, first + EnrolLog(fenced, i, true)) == d.(fences := Resize(c.fences, |d.fences|))
  {
    hide DistinctParticipants, SortedById, Canonicalized, Rollback, EnrolAt, EnrolLog, FenceApplied, Place, Resize;
    SortedIsDistinct(d.participants);
    FencedInPlace(o, d, fenced, i, incumbent, Reincarnation, [], first);
    InPlaceStaysSorted(d.participants, i, fenced.participants[i]);
    PlaceCounters(fenced, i, req);
    UpdateRollback(o, fenced, i, req, true);
    EnrolKeepsFences(o, fenced, i, req);
    RollbackInTwo(Canonicalized(EnrolAt(o, fenced, i, req, true)), first, EnrolLog(fenced, i, true));
    var table := d.participants[i].idempotency;
    FenceTakenBack(o, d, fenced, i, incumbent, Reincarnation, [], first, table, fenced.fences);
    assert WithTable(fenced, i, table).(fences := fenced.fences) == fenced;
    assert d.participants[i := d.participants[i].(idempotency := table)] == d.participants;
  }

  lemma PlaceCounters(d: DurableState, i: nat, req: RegisterRequest)
    requires i == Place(d.participants, req.participant) && CountersLeft(d, req.participant, true)
    ensures i <= |d.participants| && d.registrationFloor < U64_MAX && d.generation < U64_MAX
    ensures i < |d.participants| ==> d.participants[i].nextIncarnation < U64_MAX
  {
  }

  /** A history cut back is what it was exactly while it had room for what was added. */
  lemma CutBackIff<T>(xs: seq<T>, bound: nat, x: T)
    requires |xs| <= bound && bound > 0 && x !in xs
    ensures Resize(Remember(xs, bound, x), |xs|) == xs <==> |xs| < bound
    ensures |xs| == bound ==> Resize(Remember(xs, bound, x), |xs|) == xs[1..] + [x]
  {
    HistoryRestoredIff(xs, bound, x);
  }

  // ---- as the runtime promises it ------------------------------------------

  /** After a failed save, with `reached` the state that was to be saved: nothing of the request is left but
      the record of its attempt, and the fences are as many as they were. */
  ghost predicate Leaves(o: Options, d: DurableState, after: DurableState, id: ParticipantId, attempt: Id, reached: State) {
    exists i: nat, r: AttemptRecord ::
      && i < |d.participants| && d.participants[i].id == id && r.attempt == attempt
      && id in reached.participants && r in reached.participants[id].idempotency
      && after == Residual(o, d, i, r, reached.fences)
  }

  lemma LeavesIs(o: Options, d: DurableState, after: DurableState, i: nat, record: AttemptRecord, d2: DurableState)
    requires DistinctParticipants(d2.participants) && i < |d.participants| && i < |d2.participants|
    requires d2.participants[i].id == d.participants[i].id && record in d2.participants[i].idempotency
    requires after == Residual(o, d, i, record, d2.fences)
    ensures Leaves(o, d, after, d.participants[i].id, record.attempt, Abs(d2))
  {
    hide DistinctParticipants, ToMap, Remember;
    ToMapFacts(d2.participants);
  }

  lemma NewestIn(table: seq<AttemptRecord>, bound: nat, record: AttemptRecord)
    ensures record in Remember(table, bound, record)
  {
  }

  lemma FenceLeaves(o: Options, d: DurableState, d1: DurableState, i: nat, boot: Id, reason: FenceReason, note: Bytes,
                    log: seq<UndoAction>, record: AttemptRecord)
    requires SortedById(d.participants) && DistinctParticipants(d.participants) && FenceApplied(o, d, d1, i, boot, reason, note, log)
    requires i < |d.participants| && i < |d1.participants|
    ensures DistinctParticipants(RememberAt(o, d1, i, record).participants)
    ensures Leaves(o, d, Rollback(Canonicalized(RememberAt(o, d1, i, record)), log), d.participants[i].id, record.attempt,
                   Abs(RememberAt(o, d1, i, record)))
  {
    hide DistinctParticipants, SortedById, FenceApplied, Rollback, Canonicalized, Remember, Residual, Leaves;
    var d2 := RememberAt(o, d1, i, record);
    FencedInPlace(o, d, d1, i, boot, reason, note, log);
    SameNames(d, d1, i);
    SameNames(d1, d2, i);
    FenceResidue(o, d, d1, i, boot, reason, note, log, record);
    NewestIn(d1.participants[i].idempotency, o.limits.maxIdempotencyRecords, record);
    LeavesIs(o, d, Rollback(Canonicalized(d2), log), i, record, d2);
  }

  lemma RetirementLeaves(o: Options, d: DurableState, now: DurableState, i: nat, record: AttemptRecord, log: seq<UndoAction>)
    requires SortedById(d.participants) && SameTables(d.participants, now.participants) && TakesBack(d, now, i, log)
    requires now.generation < U64_MAX && i < |d.participants| && i < |now.participants|
    ensures var d1 := RetireAt(o, now, i, record);
            var after := Rollback(Canonicalized(d1), log + [UndoRetire(now.participants[i]), UndoGeneration(now.generation)]);
            && DistinctParticipants(d1.participants)
            && Leaves(o, d, after, d.participants[i].id, record.attempt, Abs(d1))
  {
    hide DistinctParticipants, SortedById, Rollback, Canonicalized, Remember, Residual, Leaves, TakesBack;
    var d1 := RetireAt(o, now, i, record);
    SameTablesSorted(d.participants, now.participants);
    SortedIsDistinct(now.participants);
    SameNames(now, d1, i);
    RetirementResidue(o, d, now, i, record, log);
    NewestIn(now.participants[i].idempotency, o.limits.maxIdempotencyRecords, record);
    LeavesIs(o, d, Rollback(Canonicalized(d1), log + [UndoRetire(now.participants[i]), UndoGeneration(now.generation)]), i, record, d1);
  }

  lemma GrantLeaves(o: Options, d: DurableState, i: nat, g: Grant, record: AttemptRecord)
    requires SortedById(d.participants) && DistinctParticipants(d.participants) && i < |d.participants| && d.generation < U64_MAX
    ensures var d1 := GrantAt(o, d, i, g, record);
            && DistinctParticipants(d1.participants)
            && Leaves(o, d, Rollback(Canonicalized(d1), GrantLog(d)), d.participants[i].id, record.attempt, Abs(d1))
  {
    hide DistinctParticipants, SortedById, Rollback, Canonicalized, Remember, Leaves;
    var d1 := GrantAt(o, d, i, g, record);
    SameNames(d, d1, i);
    GrantResidue(o, d, i, g, record);
    NewestIn(d.participants[i].idempotency, o.limits.maxIdempotencyRecords, record);
    assert Resize(d.fences, |d.fences|) == d.fences;
    LeavesIs(o, d, Rollback(Canonicalized(d1), GrantLog(d)), i, record, d1);
  }

  /** After a failed registration of which `reached` was to be saved: with the canonical vector of that state, the
      records are what they were, or, for a new participant, all but the last of that vector. */
  ghost predicate LeavesRegistration(d: DurableState, after: DurableState, req: RegisterRequest, reached: State) {
    exists c: DurableState ::
      && SortedById(c.participants) && DistinctParticipants(c.participants) && Abs(c) == reached
      && |c.participants| >= |d.participants|
      && after == d.(participants := if Place(d.participants, req.participant) < |d.participants| then d.participants
                                     else c.participants[..|d.participants|],
                     fences := Resize(c.fences, |d.fences|))
  }

  lemma RegistrationLeaves(o: Options, d: DurableState, d1: DurableState, req: RegisterRequest, replaced: Option<Id>,
                           log: seq<UndoAction>)
    requires SortedById(d.participants) && RegistrationApplied(o, d, d1, req, true, replaced, log)
    requires DistinctParticipants(d1.participants)
    requires replaced.Some? ==>
               var i := Place(d.participants, req.participant);
               i < |d.participants| && FindIncarnation(d.participants[i], replaced.value).Some?
    ensures LeavesRegistration(d, Rollback(Canonicalized(d1), log), req, Abs(d1))
  {
    hide DistinctParticipants, SortedById, Canonicalized, Rollback, RegistrationApplied, ToMap, Place, FindIncarnation, Resize;
    RegistrationResidue(o, d, d1, req, replaced, log);
    CanonicalizedRefines(d1);
  }
}
