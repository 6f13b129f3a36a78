/** The undo log, and exactly when running it after a failed save restores the state. */
module Undoing {
  import opened Basics
  import opened Model
  import opened Sorting
  import opened Forest
  import opened Authority
  import opened Canonical
  import opened Invariant

  // ---- undo actions ------------------------------------------------------

  datatype UndoAction =
    | UndoGeneration(generation: U64)
    | UndoRegistrationFloor(floor: U64)
    | UndoCreation
    | UndoUpdate(previous: Participant)
    | UndoFence(fenced: Participant, fenceFloor: U64, fenceCount: nat)
    | UndoPreventive(marked: Participant, preventiveFloor: U64, preventiveCount: nat)
    | UndoGrant
    | UndoRevoke(root: Id, grantGeneration: U64, revokedAt: U64, controlCount: nat)
    | UndoRetire(retired: Participant)
    | UndoEpoch(epoch: U64, coordinatorBoot: Id, epochGeneration: U64, participants: seq<Participant>, transitionCount: nat)

  function Resize<T>(xs: seq<T>, n: nat): seq<T> {
    if n <= |xs| then xs[..n] else xs
  }

  /** Position of the first participant with this identifier, by a scan of the vector. */
  function PositionOf(ps: seq<Participant>, id: ParticipantId): (r: Option<nat>)
    ensures r.Some? ==> r.value < |ps| && ps[r.value].id == id
    ensures r.None? ==> forall i :: 0 <= i < |ps| ==> ps[i].id != id
  {
    if ps == [] then None
    else if ps[0].id == id then Some(0)
    else
      var rest := PositionOf(ps[1..], id);
      assert forall i :: 1 <= i < |ps| ==> ps[i] == ps[1..][i - 1];
      if rest.Some? then Some(rest.value + 1) else None
  }

  lemma PositionIs(ps: seq<Participant>, i: nat)
    requires DistinctParticipants(ps) && i < |ps|
    ensures PositionOf(ps, ps[i].id) == Some(i)
  {
  }

  /** The fields a live fence saves, put back; the rest of the record is left as found. */
  function UnfencedFields(p: Participant, saved: Participant): Participant {
    p.(fenceGeneration := saved.fenceGeneration, incarnationFloor := saved.incarnationFloor,
       hasActiveBoot := saved.hasActiveBoot, activeBoot := saved.activeBoot, activeIncarnation := saved.activeIncarnation,
       extras := saved.extras, fencedBoots := saved.fencedBoots)
  }

  /** Clears the revocation mark of a grant and of everything delegated from it. */
  function RestoreSubtree(grants: seq<Grant>, t: nat): (r: seq<Grant>)
    ensures |r| == |grants|
  {
    seq(|grants|, i requires 0 <= i < |grants| =>
      if Descends(grants, i, t) then grants[i].(revoked := false, revokedAtEpoch := 0) else grants[i])
  }

  function UndoRevocation(grants: seq<Grant>, root: Id, generation: U64, revokedAt: U64): seq<Grant> {
    var t := IndexOf(grants, root);
    if t.None? then grants
    else
      var restored := RestoreSubtree(grants, t.value);
      restored[t.value := restored[t.value].(generation := generation, revokedAtEpoch := revokedAt)]
  }

  function UndoOne(d: DurableState, a: UndoAction): DurableState {
    match a
    case UndoGeneration(g) => d.(generation := g)
    case UndoRegistrationFloor(f) => d.(registrationFloor := f)
    case UndoCreation => d.(participants := if d.participants == [] then [] else d.participants[..|d.participants| - 1])
    case UndoUpdate(previous) =>
      var i := PositionOf(d.participants, previous.id);
      if i.Some? then d.(participants := d.participants[i.value := previous]) else d
    case UndoFence(saved, floor, count) =>
      var i := PositionOf(d.participants, saved.id);
      d.(fenceFloor := floor, fences := Resize(d.fences, count),
         participants := if i.Some? then d.participants[i.value := UnfencedFields(d.participants[i.value], saved)] else d.participants)
    case UndoPreventive(saved, floor, count) =>
      var i := PositionOf(d.participants, saved.id);
      d.(fenceFloor := floor, fences := Resize(d.fences, count),
         participants := if i.Some? then d.participants[i.value := d.participants[i.value].(fenceGeneration := saved.fenceGeneration)]
                         else d.participants)
    case UndoGrant => d.(grants := if d.grants == [] then [] else d.grants[..|d.grants| - 1])
    case UndoRevoke(root, generation, revokedAt, count) =>
      d.(control := Resize(d.control, count), grants := UndoRevocation(d.grants, root, generation, revokedAt))
    case UndoRetire(saved) =>
      var i := PositionOf(d.participants, saved.id);
      if i.Some? then
        d.(participants := d.participants[i.value := d.participants[i.value].(
             incarnationFloor := saved.incarnationFloor, retired := saved.retired, revalidationRequired := saved.revalidationRequired)])
      else d
    case UndoEpoch(epoch, boot, generation, ps, count) =>
      d.(epoch := epoch, coordinatorBoot := boot, generation := generation, participants := ps,
         transitions := Resize(d.transitions, count))
  }

  /** Runs the log backwards, newest action first. */
  function Rollback(d: DurableState, log: seq<UndoAction>): DurableState
    decreases |log|
  {
    if log == [] then d else Rollback(UndoOne(d, log[|log| - 1]), log[..|log| - 1])
  }

  /** What a save writes: the participants in canonical order. */
  function Canonicalized(d: DurableState): DurableState {
    d.(participants := Sort(d.participants, IdLess))
  }

  lemma CanonicalizedSorted(d: DurableState)
    requires SortedById(d.participants)
    ensures Canonicalized(d) == d
  {
    IdLessIsStrict();
    SortKeepsOrdered(d.participants, IdLess);
  }

  /** Replacing a record under its own identifier keeps the canonical order. */
  lemma InPlaceStaysSorted(ps: seq<Participant>, i: nat, p: Participant)
    requires SortedById(ps) && i < |ps| && p.id == ps[i].id
    ensures SortedById(ps[i := p])
  {
    var qs := ps[i := p];
    forall a, b | 0 <= a < b < |qs|
      ensures IdLess(qs[a], qs[b])
    {
      assert IdLess(ps[a], ps[b]);
    }
  }

  // ---- the mutations, on vectors -----------------------------------------

  function FenceAt(o: Options, d: DurableState, i: nat, boot: Id, sequence: U64, reason: FenceReason, note: Bytes): DurableState
    requires i < |d.participants| && d.fenceFloor < U64_MAX && d.generation < U64_MAX
  {
    var g := d.fenceFloor + 1;
    var p := d.participants[i];
    d.(fenceFloor := g, generation := d.generation + 1,
       participants := d.participants[i := FencedParticipant(o, p, boot, sequence, g)],
       fences := Remember(d.fences, o.limits.maxRecentFences, FenceRecord(boot, p.id, reason, g, d.epoch, sequence, note)))
  }

  function FenceLog(d: DurableState, i: nat): seq<UndoAction>
    requires i < |d.participants|
  {
    [UndoFence(d.participants[i], d.fenceFloor, |d.fences|), UndoGeneration(d.generation)]
  }

  function PreventAt(d: DurableState, i: nat, boot: Id, reason: FenceReason, note: Bytes): DurableState
    requires i < |d.participants| && d.fenceFloor < U64_MAX && d.generation < U64_MAX
  {
    var g := d.fenceFloor + 1;
    var p := d.participants[i];
    d.(fenceFloor := g, generation := d.generation + 1,
       participants := d.participants[i := p.(fenceGeneration := g)],
       fences := d.fences + [FenceRecord(boot, p.id, reason, g, d.epoch, 0, note)])
  }

  function PreventLog(d: DurableState, i: nat): seq<UndoAction>
    requires i < |d.participants|
  {
    [UndoPreventive(d.participants[i], d.fenceFloor, |d.fences|), UndoGeneration(d.generation)]
  }

  /** Enrols at position `i` of the vector; the position past the end appends a fresh record. */
  function EnrolAt(o: Options, d: DurableState, i: nat, req: RegisterRequest, commit: bool): DurableState
    requires i <= |d.participants| && d.registrationFloor < U64_MAX && (commit ==> d.generation < U64_MAX)
    requires i < |d.participants| ==> d.participants[i].nextIncarnation < U64_MAX
  {
    var g := d.registrationFloor + 1;
    var ps := if i < |d.participants| then d.participants[i := Enrolled(o, d.participants[i], req, g)]
              else d.participants + [Enrolled(o, FreshParticipant(req.participant, req.policy), req, g)];
    d.(registrationFloor := g, generation := if commit then d.generation + 1 else d.generation, participants := ps)
  }

  function EnrolLog(d: DurableState, i: nat, commit: bool): seq<UndoAction>
    requires i <= |d.participants|
  {
    [if i < |d.participants| then UndoUpdate(d.participants[i]) else UndoCreation, UndoRegistrationFloor(d.registrationFloor)]
    + (if commit then [UndoGeneration(d.generation)] else [])
  }

  function RememberAt(o: Options, d: DurableState, i: nat, record: AttemptRecord): DurableState
    requires i < |d.participants|
  {
    var p := d.participants[i];
    d.(participants := d.participants[i := p.(idempotency := Remember(p.idempotency, o.limits.maxIdempotencyRecords, record))])
  }

  function GrantAt(o: Options, d: DurableState, i: nat, g: Grant, record: AttemptRecord): DurableState
    requires i < |d.participants| && d.generation < U64_MAX
  {
    RememberAt(o, d.(generation := d.generation + 1, grants := d.grants + [g]), i, record)
  }

  function GrantLog(d: DurableState): seq<UndoAction> {
    [UndoGrant, UndoGeneration(d.generation)]
  }

  function RevokeAt(o: Options, d: DurableState, t: nat, record: AttemptRecord): DurableState
    requires t < |d.grants| && d.generation < U64_MAX
  {
    var swept := RevokeSubtree(d.grants, t, d.epoch);
    d.(generation := d.generation + 1,
       grants := swept[t := swept[t].(generation := d.generation + 1)],
       control := Remember(d.control, o.limits.maxIdempotencyRecords, record))
  }

  function RevokeLog(d: DurableState, t: nat): seq<UndoAction>
    requires t < |d.grants|
  {
    var g := d.grants[t];
    [UndoRevoke(g.id, g.generation, g.revokedAtEpoch, |d.control|), UndoGeneration(d.generation)]
  }

  function InvalidateEach(ps: seq<Participant>): (r: seq<Participant>)
    ensures |r| == |ps|
  {
    seq(|ps|, i requires 0 <= i < |ps| => Invalidated(ps[i]))
  }

  function AdvanceAt(o: Options, d: DurableState, boot: Id, cause: TransitionCause, invalidate: bool, transition: Id): DurableState
    requires d.epoch < U64_MAX && d.generation < U64_MAX
  {
    d.(epoch := d.epoch + 1, coordinatorBoot := boot, generation := d.generation + 1,
       participants := if invalidate then InvalidateEach(d.participants) else d.participants,
       transitions := Remember(d.transitions, o.limits.maxTransitionHistory,
                               Transition(transition, d.epoch, d.epoch + 1, cause, boot, d.generation + 1, o.provenance)))
  }

  function EpochLog(d: DurableState): seq<UndoAction> {
    [UndoEpoch(d.epoch, d.coordinatorBoot, d.generation, d.participants, |d.transitions|)]
  }

  // ---- running the log ---------------------------------------------------

  lemma {:induction false} RollbackInTwo(d: DurableState, a: seq<UndoAction>, b: seq<UndoAction>)
    ensures Rollback(d, a + b) == Rollback(Rollback(d, b), a)
    decreases |b|
  {
    if b == [] {
      assert a + b == a;
    } else {
      var last, init := b[|b| - 1], b[..|b| - 1];
      assert (a + b)[..|a + b| - 1] == a + init;
      RollbackInTwo(UndoOne(d, last), a, init);
    }
  }

  /** Only the undo of an epoch change touches the epoch. */
  predicate KeepsEpoch(log: seq<UndoAction>) {
    forall k :: 0 <= k < |log| ==> !log[k].UndoEpoch?
  }

  lemma {:induction false} RollbackKeepsEpoch(d: DurableState, log: seq<UndoAction>)
    requires KeepsEpoch(log)
    ensures Rollback(d, log).epoch == d.epoch
    decreases |log|
  {
    hide PositionOf, UndoRevocation, UnfencedFields;
    if log != [] {
      RollbackKeepsEpoch(UndoOne(d, log[|log| - 1]), log[..|log| - 1]);
    }
  }

  lemma RollbackPair(d: DurableState, a: UndoAction, b: UndoAction)
    ensures Rollback(d, [a, b]) == UndoOne(UndoOne(d, b), a)
  {
    assert [a, b][..1] == [a] && [a][..0] == [];
    assert Rollback(UndoOne(d, b), [a]) == Rollback(UndoOne(UndoOne(d, b), a), []);
  }

  // ---- fences ------------------------------------------------------------

  /** A bounded history can be cut back to what it was only while it had room. */
  lemma HistoryRestoredIff<T>(xs: seq<T>, bound: nat, x: T)
    requires bound > 0 && (xs != [] ==> xs[|xs| - 1] != x)
    ensures Resize(Remember(xs, bound, x), |xs|) == xs <==> |xs| < bound
  {
    var ys := Remember(xs, bound, x);
    if |xs| < bound {
      assert ys == xs + [x];
    } else {
      assert |ys| == |xs| && ys[|xs| - 1] == x;
    }
  }

  lemma UnfenceRestores(o: Options, p: Participant, boot: Id, sequence: U64, g: U64)
    ensures UnfencedFields(FencedParticipant(o, p, boot, sequence, g), p) == p
  {
  }

  /** What the log of a live fence does to any vector that still has the record in its place. */
  lemma UndoFenceIs(c: DurableState, d: DurableState, i: nat)
    requires DistinctParticipants(c.participants) && i < |c.participants| && i < |d.participants|
    requires c.participants[i].id == d.participants[i].id
    ensures Rollback(c, FenceLog(d, i)) ==
            c.(generation := d.generation, fenceFloor := d.fenceFloor, fences := Resize(c.fences, |d.fences|),
               participants := c.participants[i := UnfencedFields(c.participants[i], d.participants[i])])
  {
    hide UnfencedFields, Resize, PositionOf, DistinctParticipants, Rollback;
    PositionIs(c.participants, i);
    RollbackPair(c, FenceLog(d, i)[0], FenceLog(d, i)[1]);
  }

  lemma FenceAtIs(o: Options, d: DurableState, i: nat, boot: Id, sequence: U64, reason: FenceReason, note: Bytes)
    requires i < |d.participants| && d.fenceFloor < U64_MAX && d.generation < U64_MAX
    ensures var d1 := FenceAt(o, d, i, boot, sequence, reason, note);
            var p := d.participants[i];
            && d1 == d.(fenceFloor := d.fenceFloor + 1, generation := d.generation + 1,
                        participants := d.participants[i := FencedParticipant(o, p, boot, sequence, d.fenceFloor + 1)],
                        fences := Remember(d.fences, o.limits.maxRecentFences,
                                           FenceRecord(boot, p.id, reason, d.fenceFloor + 1, d.epoch, sequence, note)))
            && d1.participants[i].id == p.id
            && (SortedById(d.participants) ==> SortedById(d1.participants))
  {
    hide FencedParticipant, Remember, SortedById;
    var d1 := FenceAt(o, d, i, boot, sequence, reason, note);
    FencedKeepsId(o, d.participants[i], boot, sequence, d.fenceFloor + 1);
    if SortedById(d.participants) {
      InPlaceStaysSorted(d.participants, i, d1.participants[i]);
    }
  }

  /** Session-loss fencing, or any fence that removes a live incarnation: the rollback
      restores everything but the fence history always, and the history exactly when it was
      not full. */
  lemma FenceRollback(o: Options, d: DurableState, i: nat, boot: Id, sequence: U64, reason: FenceReason, note: Bytes)
    requires SortedById(d.participants) && i < |d.participants| && d.fenceFloor < U64_MAX && d.generation < U64_MAX
    requires o.limits.maxRecentFences > 0 && (d.fences != [] ==> d.fences[|d.fences| - 1].generation <= d.fenceFloor)
    ensures var after := Rollback(Canonicalized(FenceAt(o, d, i, boot, sequence, reason, note)), FenceLog(d, i));
            && after == d.(fences := after.fences)
            && (after == d <==> |d.fences| < o.limits.maxRecentFences)
  {
    var record := FenceRecord(boot, d.participants[i].id, reason, d.fenceFloor + 1, d.epoch, sequence, note);
    hide *;
    var d1 := FenceAt(o, d, i, boot, sequence, reason, note);
    FenceAtIs(o, d, i, boot, sequence, reason, note);
    CanonicalizedSorted(d1);
    SortedIsDistinct(d1.participants);
    UndoFenceIs(d1, d, i);
    UnfenceRestores(o, d.participants[i], boot, sequence, d.fenceFloor + 1);
    assert d1.participants[i := d.participants[i]] == d.participants;
    HistoryRestoredIff(d.fences, o.limits.maxRecentFences, record);
  }

  lemma FencedKeepsId(o: Options, p: Participant, boot: Id, sequence: U64, g: U64)
    ensures FencedParticipant(o, p, boot, sequence, g).id == p.id
  {
    hide Without;
  }

  // ---- registration ------------------------------------------------------

  lemma EnrolledKeepsId(o: Options, p: Participant, req: RegisterRequest, g: U64)
    requires p.nextIncarnation < U64_MAX
    ensures Enrolled(o, p, req, g).id == p.id
  {
  }

  lemma RollbackTriple(d: DurableState, a: UndoAction, b: UndoAction, c: UndoAction)
    ensures Rollback(d, [a, b] + [c]) == UndoOne(UndoOne(UndoOne(d, c), b), a)
    ensures Rollback(d, [a, b] + []) == UndoOne(UndoOne(d, b), a)
  {
    assert [a, b] + [] == [a, b];
    RollbackPair(d, a, b);
    RollbackPair(UndoOne(d, c), a, b);
    assert ([a, b] + [c])[..2] == [a, b];
  }

  lemma UndoEnrolIs(c: DurableState, d: DurableState, i: nat, commit: bool)
    requires DistinctParticipants(c.participants) && i < |c.participants| && i < |d.participants|
    requires c.participants[i].id == d.participants[i].id
    ensures Rollback(c, EnrolLog(d, i, commit)) ==
            c.(generation := if commit then d.generation else c.generation, registrationFloor := d.registrationFloor,
               participants := c.participants[i := d.participants[i]])
  {
    hide PositionOf, DistinctParticipants, Rollback;
    PositionIs(c.participants, i);
    var log := EnrolLog(d, i, commit);
    RollbackTriple(c, log[0], log[1], UndoGeneration(d.generation));
  }

  lemma EnrolAtIs(o: Options, d: DurableState, i: nat, req: RegisterRequest, commit: bool)
    requires i < |d.participants| && d.participants[i].nextIncarnation < U64_MAX
    requires d.registrationFloor < U64_MAX && (commit ==> d.generation < U64_MAX)
    ensures var d1 := EnrolAt(o, d, i, req, commit);
            && d1 == d.(registrationFloor := d1.registrationFloor, generation := if commit then d.generation + 1 else d.generation,
                        participants := d.participants[i := d1.participants[i]])
            && d1.participants[i].id == d.participants[i].id
            && (SortedById(d.participants) ==> SortedById(d1.participants))
  {
    hide Enrolled, SortedById;
    var d1 := EnrolAt(o, d, i, req, commit);
    EnrolledKeepsId(o, d.participants[i], req, d.registrationFloor + 1);
    if SortedById(d.participants) {
      InPlaceStaysSorted(d.participants, i, d1.participants[i]);
    }
  }

  /** Re-registration of a known participant: the rollback restores the state exactly. */
  lemma UpdateRollback(o: Options, d: DurableState, i: nat, req: RegisterRequest, commit: bool)
    requires SortedById(d.participants) && i < |d.participants| && d.participants[i].nextIncarnation < U64_MAX
    requires d.registrationFloor < U64_MAX && (commit ==> d.generation < U64_MAX)
    ensures Rollback(Canonicalized(EnrolAt(o, d, i, req, commit)), EnrolLog(d, i, commit)) == d
  {
    hide *;
    var d1 := EnrolAt(o, d, i, req, commit);
    EnrolAtIs(o, d, i, req, commit);
    CanonicalizedSorted(d1);
    SortedIsDistinct(d1.participants);
    UndoEnrolIs(d1, d, i, commit);
    assert d1.participants[i := d.participants[i]] == d.participants;
  }

  lemma UndoCreationIs(c: DurableState, d: DurableState, commit: bool)
    requires c.participants != []
    ensures Rollback(c, EnrolLog(d, |d.participants|, commit)) ==
            c.(generation := if commit then d.generation else c.generation, registrationFloor := d.registrationFloor,
               participants := c.participants[..|c.participants| - 1])
  {
    hide Rollback, PositionOf;
    var log := EnrolLog(d, |d.participants|, commit);
    RollbackTriple(c, log[0], log[1], UndoGeneration(d.generation));
  }

  /** Registration of a new participant: undoing the append pops whichever record canonical
      order put last, so the rollback restores the state exactly when that is the new one. */
  lemma CreationRollback(o: Options, d: DurableState, req: RegisterRequest, commit: bool)
    requires SortedById(d.participants) && PositionOf(d.participants, req.participant).None?
    requires d.registrationFloor < U64_MAX && (commit ==> d.generation < U64_MAX)
    ensures var n := |d.participants|;
            Rollback(Canonicalized(EnrolAt(o, d, n, req, commit)), EnrolLog(d, n, commit)) == d
            <==> forall i :: 0 <= i < n ==> BytesLess(d.participants[i].id.text, req.participant.text)
  {
    hide Enrolled, PositionOf, BytesLess, Sort;
    var n := |d.participants|;
    var d1 := EnrolAt(o, d, n, req, commit);
    var unborn := FreshParticipant(req.participant, req.policy);
    EnrolledKeepsId(o, unborn, req, d.registrationFloor + 1);
    var p := Enrolled(o, unborn, req, d.registrationFloor + 1);
    var c := Canonicalized(d1);
    assert d1.participants == d.participants + [p];
    var log := EnrolLog(d, n, commit);
    RollbackTriple(c, log[0], log[1], UndoGeneration(d.generation));
    SortedWithNew(d.participants, p);
  }

  lemma SortedWithNew(ps: seq<Participant>, p: Participant)
    requires SortedById(ps) && PositionOf(ps, p.id).None?
    ensures var sorted := Sort(ps + [p], IdLess);
            |sorted| == |ps| + 1 && (sorted[..|ps|] == ps <==> forall i :: 0 <= i < |ps| ==> IdLess(ps[i], p))
  {
    hide IdLess, PositionOf, Sort;
    var n, all := |ps|, ps + [p];
    var sorted := Sort(all, IdLess);
    SortedWithNewOrdered(ps, p);
    if forall i :: 0 <= i < n ==> IdLess(ps[i], p) {
      assert Ordered(all, IdLess);
      OrderedIsUnique(sorted, all, IdLess);
      assert all[..n] == ps;
    }
    if sorted[..n] == ps {
      LastOfPermutation(ps, p, sorted);
      assert forall i :: 0 <= i < n ==> ps[i] == sorted[i] && IdLess(sorted[i], sorted[n]);
    }
  }

  lemma SortedWithNewOrdered(ps: seq<Participant>, p: Participant)
    requires SortedById(ps) && PositionOf(ps, p.id).None?
    ensures StrictOrder(IdLess) && Ordered(Sort(ps + [p], IdLess), IdLess)
  {
    hide IdLess, Sort;
    IdLessIsStrict();
    SortedIsDistinct(ps);
    var all := ps + [p];
    assert forall i :: 0 <= i < |ps| ==> all[i] == ps[i];
    DistinctIsComparable(all);
    SortOrders(all, IdLess);
  }

  lemma LastOfPermutation<T>(xs: seq<T>, x: T, ys: seq<T>)
    requires multiset(ys) == multiset(xs + [x]) && |ys| == |xs| + 1 && ys[..|xs|] == xs
    ensures ys == xs + [x]
  {
    var y := ys[|xs|];
    assert ys == xs + [y];
    assert multiset(xs) + multiset{y} == multiset(xs) + multiset{x};
    assert multiset{y} == (multiset(xs) + multiset{y}) - multiset(xs) == multiset{x};
    assert y in multiset{x};
  }

  /** Replacement of an incumbent: fence and registration are undone together, exactly when
      the fence history was not full. */
  lemma ReplacementRollback(o: Options, d: DurableState, i: nat, incumbent: Id, sequence: U64, req: RegisterRequest)
    requires SortedById(d.participants) && i < |d.participants| && d.participants[i].nextIncarnation < U64_MAX
    requires d.registrationFloor < U64_MAX && d.fenceFloor < U64_MAX && d.generation < U64_MAX - 1
    requires o.limits.maxRecentFences > 0 && (d.fences != [] ==> d.fences[|d.fences| - 1].generation <= d.fenceFloor)
    ensures var fenced := FenceAt(o, d, i, incumbent, sequence, Reincarnation, []);
            i < |fenced.participants| && fenced.participants[i].nextIncarnation == d.participants[i].nextIncarnation
            && (Rollback(Canonicalized(EnrolAt(o, fenced, i, req, true)), FenceLog(d, i) + EnrolLog(fenced, i, true)) == d
                <==> |d.fences| < o.limits.maxRecentFences)
  {
    hide Remember, FencedParticipant, Enrolled, SortedById, Rollback, Canonicalized;
    var fenced := FenceAt(o, d, i, incumbent, sequence, Reincarnation, []);
    FencedKeepsId(o, d.participants[i], incumbent, sequence, d.fenceFloor + 1);
    FencedKeepsAllocator(o, d.participants[i], incumbent, sequence, d.fenceFloor + 1);
    InPlaceStaysSorted(d.participants, i, fenced.participants[i]);
    UpdateRollback(o, fenced, i, req, true);
    RollbackInTwo(Canonicalized(EnrolAt(o, fenced, i, req, true)), FenceLog(d, i), EnrolLog(fenced, i, true));
    CanonicalizedSorted(fenced);
    FenceRollback(o, d, i, incumbent, sequence, Reincarnation, []);
  }

  lemma FencedKeepsAllocator(o: Options, p: Participant, boot: Id, sequence: U64, g: U64)
    ensures FencedParticipant(o, p, boot, sequence, g).nextIncarnation == p.nextIncarnation
  {
    hide Without;
  }

  // ---- revocation --------------------------------------------------------

  /** Grants that were never revoked carry no revocation epoch. */
  predicate Unmarked(grants: seq<Grant>) {
    forall i :: 0 <= i < |grants| && !grants[i].revoked ==> grants[i].revokedAtEpoch == 0
  }

  lemma RevokedVectorRestored(d: DurableState, t: nat, after: seq<Grant>)
    requires UniqueIds(d.grants) && Unmarked(d.grants) && t < |d.grants| && !d.grants[t].revoked && d.generation < U64_MAX
    requires var swept := RevokeSubtree(d.grants, t, d.epoch); after == swept[t := swept[t].(generation := d.generation + 1)]
    ensures UndoRevocation(after, d.grants[t].id, d.grants[t].generation, d.grants[t].revokedAtEpoch) == d.grants
            <==> forall i :: 0 <= i < |d.grants| && Descends(d.grants, i, t) ==> !d.grants[i].revoked
  {
    hide IndexOf;
    var g := d.grants[t];
    SameParents(d.grants, after, g.id);
    OnlyIndex(d.grants, t);
    var undone := UndoRevocation(after, g.id, g.generation, g.revokedAtEpoch);
    forall i | 0 <= i < |d.grants|
      ensures undone[i] == d.grants[i] <==> (Descends(d.grants, i, t) ==> !d.grants[i].revoked)
    {
      SameDescent(d.grants, after, i, t);
    }
  }

  lemma OnlyIndex(grants: seq<Grant>, t: nat)
    requires UniqueIds(grants) && t < |grants|
    ensures IndexOf(grants, grants[t].id) == Some(t)
  {
  }

  /** Revocation: the rollback revives the whole subtree, including whatever an earlier
      operation had revoked in it, and cuts the control table to its old length. It is exact
      when nothing below the target was revoked before and the table was not full. */
  lemma RevokeRollback(o: Options, d: DurableState, t: nat, record: AttemptRecord)
    requires SortedById(d.participants) && o.limits.maxIdempotencyRecords > 0
    requires UniqueIds(d.grants) && Unmarked(d.grants) && t < |d.grants| && !d.grants[t].revoked && d.generation < U64_MAX
    requires FindAttempt(d.control, record.attempt).None?
    ensures Rollback(Canonicalized(RevokeAt(o, d, t, record)), RevokeLog(d, t)) == d
            <==> |d.control| < o.limits.maxIdempotencyRecords
                 && forall i :: 0 <= i < |d.grants| && Descends(d.grants, i, t) ==> !d.grants[i].revoked
  {
    hide Remember, Resize, RevokeSubtree, UndoRevocation, SortedById, FindAttempt, UniqueIds, Unmarked;
    var d1 := RevokeAt(o, d, t, record);
    CanonicalizedSorted(d1);
    RollbackPair(d1, RevokeLog(d, t)[0], RevokeLog(d, t)[1]);
    RevokedVectorRestored(d, t, d1.grants);
    HistoryRestoredIff(d.control, o.limits.maxIdempotencyRecords, record);
  }

  // ---- attempts that outlive a rollback ----------------------------------

  /** The actions that put a whole participant record back. */
  predicate PutsRecordsBack(a: UndoAction) {
    a.UndoUpdate? || a.UndoCreation? || a.UndoEpoch?
  }

  predicate SameTables(ps: seq<Participant>, qs: seq<Participant>) {
    |ps| == |qs| && forall i :: 0 <= i < |ps| ==> qs[i].id == ps[i].id && qs[i].idempotency == ps[i].idempotency
  }

  /** No other action touches an attempt table, so what an operation remembered stays
      remembered although the operation is undone. */
  lemma {:induction false} RollbackKeepsTables(d: DurableState, log: seq<UndoAction>)
    requires forall k :: 0 <= k < |log| ==> !PutsRecordsBack(log[k])
    ensures SameTables(d.participants, Rollback(d, log).participants)
    decreases |log|
  {
    hide PositionOf, UndoRevocation;
    if log != [] {
      var d1 := UndoOne(d, log[|log| - 1]);
      assert SameTables(d.participants, d1.participants);
      RollbackKeepsTables(d1, log[..|log| - 1]);
    }
  }

  /** Fence, grant and retire requests: the record of the attempt is stored before the save and
      no undo action removes it, so the rollback is never exact. */
  lemma RememberedAttemptSurvives(o: Options, d: DurableState, d1: DurableState, i: nat, record: AttemptRecord, log: seq<UndoAction>)
    requires SortedById(d1.participants) && i < |d.participants| && |d1.participants| == |d.participants|
    requires d1.participants[i].idempotency == Remember(d.participants[i].idempotency, o.limits.maxIdempotencyRecords, record)
    requires FindAttempt(d.participants[i].idempotency, record.attempt).None?
    requires forall k :: 0 <= k < |log| ==> !PutsRecordsBack(log[k])
    ensures var after := Rollback(Canonicalized(d1), log);
            && after != d
            && i < |after.participants| && after.participants[i].id == d1.participants[i].id
            && after.participants[i].idempotency == d1.participants[i].idempotency
            && FindAttempt(after.participants[i].idempotency, record.attempt).Some?
  {
    CanonicalizedSorted(d1);
    RollbackKeepsTables(d1, log);
    var table := d1.participants[i].idempotency;
    assert table[|table| - 1] == record;
  }

  /** A failed operator fence leaves the boot live and yet answers the retry as done. */
  lemma FailedFenceLooksDone(o: Options, d: DurableState, i: nat, req: FenceRequest, sequence: U64)
    requires ViableOptions(o) && SortedById(d.participants) && DistinctParticipants(d.participants)
    requires i < |d.participants| && d.participants[i].id == req.participant
    requires d.fenceFloor < U64_MAX && d.generation < U64_MAX
    requires req.attempt != NIL && req.boot != NIL && req.participant.text != [] && req.expectedEpoch == d.epoch
    requires FindIncarnation(d.participants[i], req.boot) == Some(sequence) && !LookupFence(Abs(d), req.participant, req.boot).fenced
    requires FindAttempt(d.participants[i].idempotency, req.attempt).None?
    requires |d.fences| < o.limits.maxRecentFences
    requires (d.fences != [] ==> d.fences[|d.fences| - 1].generation <= d.fenceFloor)
    ensures var record := AttemptRecord(req.attempt, FenceKind, o.digest(Fencing(req)), 0, d.fenceFloor + 1, sequence, NIL);
            var saved := RememberAt(o, FenceAt(o, d, i, req.boot, sequence, req.reason, req.note), i, record);
            var after := Rollback(Canonicalized(saved), FenceLog(d, i));
            && DistinctParticipants(after.participants)
            && i < |after.participants| && FindIncarnation(after.participants[i], req.boot) == Some(sequence)
            && var retry := FenceWorker(o, Abs(after), req);
               retry.Done? && retry.result.outcome == FenceDone && !retry.mutated
  {
    var record := AttemptRecord(req.attempt, FenceKind, o.digest(Fencing(req)), 0, d.fenceFloor + 1, sequence, NIL);
    hide *;
    var saved := RememberAt(o, FenceAt(o, d, i, req.boot, sequence, req.reason, req.note), i, record);
    var after := Rollback(Canonicalized(saved), FenceLog(d, i));
    var p := d.participants[i];
    FailedFenceLeaves(o, d, i, req, sequence, record);
    var q := after.participants[i];
    SameLiveFound(p, q, req.boot);
    RememberedIsFound(p.idempotency, o.limits.maxIdempotencyRecords, record);
    RetriedFence(o, after, i, req, record);
  }

  /** What the failed fence leaves behind: the attempt record and nothing else. */
  lemma FailedFenceLeaves(o: Options, d: DurableState, i: nat, req: FenceRequest, sequence: U64, record: AttemptRecord)
    requires SortedById(d.participants) && i < |d.participants| && d.fenceFloor < U64_MAX && d.generation < U64_MAX
    requires o.limits.maxRecentFences > 0 && (d.fences != [] ==> d.fences[|d.fences| - 1].generation <= d.fenceFloor)
    requires |d.fences| < o.limits.maxRecentFences
    ensures var saved := RememberAt(o, FenceAt(o, d, i, req.boot, sequence, req.reason, req.note), i, record);
            var p := d.participants[i];
            var table := Remember(p.idempotency, o.limits.maxIdempotencyRecords, record);
            var after := Rollback(Canonicalized(saved), FenceLog(d, i));
            && after == d.(participants := d.participants[i := p.(idempotency := table)])
            && SortedById(after.participants) && DistinctParticipants(after.participants)
  {
    var fence := FenceRecord(req.boot, d.participants[i].id, req.reason, d.fenceFloor + 1, d.epoch, sequence, req.note);
    hide *;
    var p := d.participants[i];
    var saved := RememberAt(o, FenceAt(o, d, i, req.boot, sequence, req.reason, req.note), i, record);
    RememberedFence(o, d, i, req, sequence, record);
    HistoryRestoredIff(d.fences, o.limits.maxRecentFences, fence);
    var stored, q := saved.participants[i], p.(idempotency := Remember(p.idempotency, o.limits.maxIdempotencyRecords, record));
    UnfencedWithTable(o, p, req.boot, sequence, d.fenceFloor + 1, stored);
    UndoneInPlace(d, saved, i, q);
  }

  lemma UndoneInPlace(d: DurableState, saved: DurableState, i: nat, q: Participant)
    requires SortedById(d.participants) && i < |d.participants| && SortedById(saved.participants) && i < |saved.participants|
    requires saved == d.(fenceFloor := saved.fenceFloor, generation := saved.generation, fences := saved.fences,
                         participants := d.participants[i := saved.participants[i]])
    requires Resize(saved.fences, |d.fences|) == d.fences
    requires UnfencedFields(saved.participants[i], d.participants[i]) == q && q.id == d.participants[i].id
    requires saved.participants[i].id == q.id
    ensures var after := Rollback(Canonicalized(saved), FenceLog(d, i));
            && after == d.(participants := d.participants[i := q])
            && SortedById(after.participants) && DistinctParticipants(after.participants)
  {
    hide *;
    CanonicalizedSorted(saved);
    SortedIsDistinct(saved.participants);
    UndoFenceIs(saved, d, i);
    assert saved.participants[i := q] == d.participants[i := q];
    InPlaceStaysSorted(d.participants, i, q);
    SortedIsDistinct(d.participants[i := q]);
  }

  lemma RememberedFence(o: Options, d: DurableState, i: nat, req: FenceRequest, sequence: U64, record: AttemptRecord)
    requires SortedById(d.participants) && i < |d.participants| && d.fenceFloor < U64_MAX && d.generation < U64_MAX
    ensures var saved := RememberAt(o, FenceAt(o, d, i, req.boot, sequence, req.reason, req.note), i, record);
            var p := d.participants[i];
            var stored := FencedParticipant(o, p, req.boot, sequence, d.fenceFloor + 1)
                          .(idempotency := Remember(p.idempotency, o.limits.maxIdempotencyRecords, record));
            && saved == d.(fenceFloor := d.fenceFloor + 1, generation := d.generation + 1,
                           participants := d.participants[i := stored],
                           fences := Remember(d.fences, o.limits.maxRecentFences,
                                              FenceRecord(req.boot, p.id, req.reason, d.fenceFloor + 1, d.epoch, sequence, req.note)))
            && SortedById(saved.participants) && stored.id == p.id
  {
    hide FenceAt, RememberAt, FencedParticipant, Remember, SortedById;
    var fenced := FenceAt(o, d, i, req.boot, sequence, req.reason, req.note);
    FenceAtIs(o, d, i, req.boot, sequence, req.reason, req.note);
    RememberAtIs(o, fenced, i, record);
    FencedKeepsTable(o, d.participants[i], req.boot, sequence, d.fenceFloor + 1);
    InPlaceStaysSorted(fenced.participants, i, RememberAt(o, fenced, i, record).participants[i]);
    assert fenced.participants[i := RememberAt(o, fenced, i, record).participants[i]]
        == d.participants[i := RememberAt(o, fenced, i, record).participants[i]];
  }

  lemma RememberAtIs(o: Options, d: DurableState, i: nat, record: AttemptRecord)
    requires i < |d.participants|
    ensures var p := d.participants[i];
            RememberAt(o, d, i, record) ==
            d.(participants := d.participants[i := p.(idempotency := Remember(p.idempotency, o.limits.maxIdempotencyRecords, record))])
  {
  }

  lemma FencedKeepsTable(o: Options, p: Participant, boot: Id, sequence: U64, g: U64)
    ensures FencedParticipant(o, p, boot, sequence, g).idempotency == p.idempotency
  {
    hide Without;
  }

  lemma RetriedFence(o: Options, d: DurableState, i: nat, req: FenceRequest, record: AttemptRecord)
    requires DistinctParticipants(d.participants) && i < |d.participants| && d.participants[i].id == req.participant
    requires req.attempt != NIL && req.boot != NIL && req.participant.text != [] && req.expectedEpoch == d.epoch
    requires FindAttempt(d.participants[i].idempotency, req.attempt) == Some(record)
    requires record.semantic == o.digest(Fencing(req)) && record.outcome == 0
    ensures var retry := FenceWorker(o, Abs(d), req);
            retry.Done? && retry.result.outcome == FenceDone && !retry.mutated
  {
    hide ToMap, DistinctParticipants, FindAttempt, LookupFence, RecordFence, FindIncarnation, IsBoundedText;
    ToMapFacts(d.participants);
  }

  lemma UnfencedWithTable(o: Options, p: Participant, boot: Id, sequence: U64, g: U64, stored: Participant)
    requires stored == FencedParticipant(o, p, boot, sequence, g).(idempotency := stored.idempotency)
    ensures UnfencedFields(stored, p) == p.(idempotency := stored.idempotency)
  {
  }

  lemma SameLiveFound(p: Participant, q: Participant, boot: Id)
    requires q == p.(idempotency := q.idempotency)
    ensures FindIncarnation(q, boot) == FindIncarnation(p, boot)
  {
  }

  lemma {:induction false} RememberedIsFound(table: seq<AttemptRecord>, bound: nat, record: AttemptRecord)
    requires FindAttempt(table, record.attempt).None?
    ensures FindAttempt(Remember(table, bound, record), record.attempt) == Some(record)
  {
    var t := Remember(table, bound, record);
    var found := FindAttempt(t, record.attempt);
    assert t[|t| - 1] == record;
    assert forall i :: 0 <= i < |t| - 1 ==> t[i] in table;
    if found.Some? {
      var k :| 0 <= k < |t| && t[k] == found.value;
    }
  }

  /** Epoch advancement: participants, epoch and transitions are put back, but the control
      attempt stays, so a failed advance is never undone exactly. */
  lemma AdvanceRollbackNeverExact(o: Options, d: DurableState, cause: TransitionCause, transition: Id, record: AttemptRecord)
    requires d.epoch < U64_MAX && d.generation < U64_MAX && FindAttempt(d.control, record.attempt).None?
    ensures var d1 := AdvanceAt(o, d, d.coordinatorBoot, cause, true, transition);
            var d2 := d1.(control := Remember(d1.control, o.limits.maxIdempotencyRecords, record));
            var after := Rollback(Canonicalized(d2), EpochLog(d));
            && after != d && after.epoch == d.epoch && after.participants == d.participants
            && FindAttempt(after.control, record.attempt) == Some(record)
  {
    hide Sort, InvalidateEach;
    var d1 := AdvanceAt(o, d, d.coordinatorBoot, cause, true, transition);
    var d2 := d1.(control := Remember(d1.control, o.limits.maxIdempotencyRecords, record));
    var c := Canonicalized(d2);
    var a := EpochLog(d)[0];
    assert EpochLog(d)[..0] == [];
    assert Rollback(c, EpochLog(d)) == Rollback(UndoOne(c, a), []) == UndoOne(c, a);
    RememberedIsFound(d.control, o.limits.maxIdempotencyRecords, record);
  }

  /** A registration refused because its boot is live elsewhere loses a bystander: with the new
      identifier sorting first, the undo pops the incumbent instead. */
  lemma RefusalLosesBystander(o: Options, z: Participant, req: RegisterRequest, d: DurableState)
    requires d.participants == [z] && BytesLess(req.participant.text, z.id.text)
    requires d.registrationFloor < U64_MAX && d.generation < U64_MAX
    ensures var after := Rollback(Canonicalized(EnrolAt(o, d, 1, req, true)), EnrolLog(d, 1, true));
            |after.participants| == 1 && after.participants[0].id == req.participant && after.participants[0] != z
  {
    var unborn := FreshParticipant(req.participant, req.policy);
    var p := Enrolled(o, unborn, req, d.registrationFloor + 1);
    EnrolledKeepsId(o, unborn, req, d.registrationFloor + 1);
    var d1 := EnrolAt(o, d, 1, req, true);
    assert d1.participants == [z, p];
    hide *;
    SortedPair(z, p);
    UndoCreationIs(Canonicalized(d1), d, true);
    assert [p, z][..1] == [p];
  }

  lemma SortedPair(z: Participant, p: Participant)
    requires BytesLess(p.id.text, z.id.text)
    ensures p.id != z.id
    ensures forall d: DurableState :: d.participants == [z, p] ==> Canonicalized(d) == d.(participants := [p, z])
  {
    hide BytesLess, Sort;
    IdLessIsStrict();
    assert multiset([z, p]) == multiset([p, z]);
    assert IdLess(p, z) && Ordered([p, z], IdLess);
    BytesLessAsymmetric(p.id.text, z.id.text);
    DistinctIsComparable([z, p]);
    SortOrders([z, p], IdLess);
    OrderedIsUnique(Sort([z, p], IdLess), [p, z], IdLess);
  }
}
