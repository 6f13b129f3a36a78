/** Undoing a batch after a failed save: the log of many registrations, run backwards over a vector
    that has been sorted in between. */
module BatchUndo {
  import opened Basics
  import opened Model
  import opened Sorting
  import opened Authority
  import opened Canonical
  import opened Undoing
  import opened Refinement
  import opened Settlement
  import opened Residue

  // ---- what a log of registrations undoes --------------------------------

  /** The actions that registrations log: enrolments, and the fences of incumbents they replace. */
  predicate Registrational(log: seq<UndoAction>) {
    forall k :: 0 <= k < |log| ==> IsRegistrational(log[k])
  }

  predicate IsRegistrational(a: UndoAction) {
    a.UndoUpdate? || a.UndoCreation? || a.UndoRegistrationFloor? || a.UndoFence? || a.UndoPreventive? || a.UndoGeneration?
  }

  function Pops(log: seq<UndoAction>): nat {
    if log == [] then 0 else Pops(log[..|log| - 1]) + (if log[|log| - 1].UndoCreation? then 1 else 0)
  }

  /** What one action does to a record that is there. */
  function Revert(a: UndoAction, p: Participant): (r: Participant)
    ensures r.id == p.id
  {
    if a.UndoUpdate? && a.previous.id == p.id then a.previous
    else if a.UndoFence? && a.fenced.id == p.id then UnfencedFields(p, a.fenced)
    else if a.UndoPreventive? && a.marked.id == p.id then p.(fenceGeneration := a.marked.fenceGeneration)
    else p
  }

  function PutBack(log: seq<UndoAction>, p: Participant): (r: Participant)
    ensures r.id == p.id
  {
    if log == [] then p else PutBack(log[..|log| - 1], Revert(log[|log| - 1], p))
  }

  /** All of a state but its participants. */
  function Bare(d: DurableState): DurableState {
    d.(participants := [])
  }

  /** The vector loses as many records from its end as were created, wherever they are; those left are
      reverted one by one; and the rest goes back as it would without participants. */
  predicate PutsBack(c: DurableState, log: seq<UndoAction>, r: DurableState) {
    && |r.participants| + Pops(log) == |c.participants|
    && (forall j :: 0 <= j < |r.participants| ==> r.participants[j] == PutBack(log, c.participants[j]))
    && Bare(r) == Rollback(Bare(c), log)
  }

  lemma {:induction false} RollbackPutsBack(c: DurableState, log: seq<UndoAction>)
    requires DistinctParticipants(c.participants) && Registrational(log) && Pops(log) <= |c.participants|
    ensures PutsBack(c, log, Rollback(c, log))
    decreases |log|
  {
    hide DistinctParticipants, UndoOne, Revert, IsRegistrational;
    if log != [] {
      var init, a := log[..|log| - 1], log[|log| - 1];
      OneBack(c, a);
      RollbackPutsBack(UndoOne(c, a), init);
    }
  }

  lemma OneBack(c: DurableState, a: UndoAction)
    requires DistinctParticipants(c.participants) && IsRegistrational(a) && (a.UndoCreation? ==> c.participants != [])
    ensures var d := UndoOne(c, a);
            && DistinctParticipants(d.participants)
            && |d.participants| == |c.participants| - (if a.UndoCreation? then 1 else 0)
            && (forall j :: 0 <= j < |d.participants| ==> d.participants[j] == Revert(a, c.participants[j]))
            && Bare(d) == UndoOne(Bare(c), a)
  {
    hide PositionOf, UnfencedFields, DistinctParticipants, Resize;
    var d := UndoOne(c, a);
    forall j | 0 <= j < |c.participants|
      ensures PositionOf(c.participants, c.participants[j].id) == Some(j)
    {
      PositionIs(c.participants, j);
    }
    NoPosition();
    Reverted(c.participants, a, d.participants);
  }

  lemma NoPosition()
    ensures forall id :: PositionOf([], id).None?
  {
  }

  lemma Reverted(ps: seq<Participant>, a: UndoAction, qs: seq<Participant>)
    requires DistinctParticipants(ps) && |qs| <= |ps|
    requires forall j :: 0 <= j < |qs| ==> qs[j] == Revert(a, ps[j])
    ensures DistinctParticipants(qs)
  {
    hide Revert;
  }

  // ---- the log of a batch ------------------------------------------------

  /** The vector has grown at its end and been updated in place, the fences have grown or lost their
      oldest, and the log knows how to take it back. */
  ghost predicate Tracks(d: DurableState, now: DurableState, log: seq<UndoAction>) {
    && Registrational(log) && TracksRecords(d, now, log) && TracksRest(d, now, log)
  }

  predicate TracksRecords(d: DurableState, now: DurableState, log: seq<UndoAction>) {
    && Pops(log) + |d.participants| == |now.participants|
    && forall i :: 0 <= i < |d.participants| ==>
         now.participants[i].id == d.participants[i].id && PutBack(log, now.participants[i]) == d.participants[i]
  }

  ghost predicate TracksRest(d: DurableState, now: DurableState, log: seq<UndoAction>) {
    && |d.fences| <= |now.fences|
    && forall fences :: |fences| == |now.fences| ==>
         Rollback(Bare(now).(fences := fences), log) == Bare(d).(fences := Resize(fences, |d.fences|))
  }

  lemma TracksNothing(d: DurableState)
    ensures Tracks(d, d, [])
  {
  }

  /** A later part of the log is undone first. */
  lemma {:induction false} PutBackInTwo(log: seq<UndoAction>, more: seq<UndoAction>, p: Participant)
    ensures PutBack(log + more, p) == PutBack(log, PutBack(more, p))
    ensures Pops(log + more) == Pops(log) + Pops(more)
    decreases |more|
  {
    if more == [] {
      assert log + more == log;
    } else {
      var a := more[|more| - 1];
      assert (log + more)[..|log + more| - 1] == log + more[..|more| - 1];
      PutBackInTwo(log, more[..|more| - 1], Revert(a, p));
    }
  }

  lemma TracksOnwards(d: DurableState, now: DurableState, log: seq<UndoAction>, next: DurableState, more: seq<UndoAction>)
    requires Tracks(d, now, log) && Tracks(now, next, more)
    ensures Tracks(d, next, log + more)
  {
    hide Rollback, IsRegistrational, PutBack, Pops, Revert;
    forall p
      ensures PutBack(log + more, p) == PutBack(log, PutBack(more, p)) && Pops(log + more) == Pops(log) + Pops(more)
    {
      PutBackInTwo(log, more, p);
    }
    RestOnwards(d, now, log, next, more);
    PutBackInTwo(log, more, FreshParticipant(ParticipantId([]), SingleIncarnation));
  }

  lemma RestOnwards(d: DurableState, now: DurableState, log: seq<UndoAction>, next: DurableState, more: seq<UndoAction>)
    requires TracksRest(d, now, log) && TracksRest(now, next, more)
    ensures TracksRest(d, next, log + more)
  {
    hide Rollback;
    forall fences | |fences| == |next.fences|
      ensures Rollback(Bare(next).(fences := fences), log + more) == Bare(d).(fences := Resize(fences, |d.fences|))
    {
      RollbackInTwo(Bare(next).(fences := fences), log, more);
      var cut := Resize(fences, |now.fences|);
      assert Bare(now).(fences := cut) == Rollback(Bare(next).(fences := fences), more);
      assert Resize(cut, |d.fences|) == Resize(fences, |d.fences|);
    }
  }

  // ---- one step ----------------------------------------------------------

  lemma PairBack(a: UndoAction, b: UndoAction, p: Participant)
    ensures PutBack([a, b], p) == Revert(a, Revert(b, p))
    ensures Pops([a, b]) == (if a.UndoCreation? then 1 else 0) + (if b.UndoCreation? then 1 else 0)
  {
    assert [a, b][..1] == [a] && [a][..0] == [];
    assert PutBack([a], Revert(b, p)) == PutBack([], Revert(a, Revert(b, p)));
    assert Pops([a]) == Pops([]) + if a.UndoCreation? then 1 else 0;
  }

  /** In place: the record at `i` was replaced, and the log reverts it. */
  lemma RecordsInPlace(now: DurableState, next: DurableState, i: nat, a: UndoAction, b: UndoAction)
    requires DistinctParticipants(now.participants) && i < |now.participants| == |next.participants|
    requires next.participants == now.participants[i := next.participants[i]] && next.participants[i].id == now.participants[i].id
    requires !a.UndoCreation? && !b.UndoCreation? && Revert(a, Revert(b, next.participants[i])) == now.participants[i]
    requires forall p: Participant :: p.id != now.participants[i].id ==> Revert(a, Revert(b, p)) == p
    ensures TracksRecords(now, next, [a, b])
  {
    hide DistinctParticipants, PutBack, Pops, Revert;
    OnlyHere(now.participants, i);
    forall k | 0 <= k < |now.participants|
      ensures PutBack([a, b], next.participants[k]) == now.participants[k]
    {
      PairBack(a, b, next.participants[k]);
    }
    PairBack(a, b, next.participants[i]);
  }

  lemma TracksFence(o: Options, now: DurableState, next: DurableState, i: nat, boot: Id, reason: FenceReason, note: Bytes,
                    more: seq<UndoAction>)
    requires DistinctParticipants(now.participants) && FenceApplied(o, now, next, i, boot, reason, note, more)
    ensures Tracks(now, next, more)
  {
    hide DistinctParticipants, TracksRecords, TracksRest, FenceApplied;
    FenceRecordsBack(o, now, next, i, boot, reason, note, more);
    FenceRestBack(o, now, next, i, boot, reason, note, more);
  }

  lemma FenceRecordsBack(o: Options, now: DurableState, next: DurableState, i: nat, boot: Id, reason: FenceReason, note: Bytes,
                         more: seq<UndoAction>)
    requires DistinctParticipants(now.participants) && FenceApplied(o, now, next, i, boot, reason, note, more)
    ensures Registrational(more) && TracksRecords(now, next, more)
  {
    hide DistinctParticipants, FindIncarnation, FencedParticipant, UnfencedFields, TracksRecords, Remember;
    FencedInPlace(o, now, next, i, boot, reason, note, more);
    var sequence := FindIncarnation(now.participants[i], boot);
    if sequence.Some? {
      UnfenceRestores(o, now.participants[i], boot, sequence.value, now.fenceFloor + 1);
    }
    RecordsInPlace(now, next, i, more[0], more[1]);
    assert more == [more[0], more[1]];
  }

  lemma FenceRestBack(o: Options, now: DurableState, next: DurableState, i: nat, boot: Id, reason: FenceReason, note: Bytes,
                      more: seq<UndoAction>)
    requires FenceApplied(o, now, next, i, boot, reason, note, more)
    ensures TracksRest(now, next, more)
  {
    hide Rollback, FindIncarnation, FencedParticipant, PositionOf;
    NoPosition();
    forall fences | |fences| == |next.fences|
      ensures Rollback(Bare(next).(fences := fences), more) == Bare(now).(fences := Resize(fences, |now.fences|))
    {
      RollbackPair(Bare(next).(fences := fences), more[0], more[1]);
    }
  }

  lemma TracksEnrolment(o: Options, now: DurableState, i: nat, req: RegisterRequest)
    requires DistinctParticipants(now.participants) && i <= |now.participants| && now.registrationFloor < U64_MAX
    requires i < |now.participants| ==> now.participants[i].nextIncarnation < U64_MAX
    ensures Tracks(now, EnrolAt(o, now, i, req, false), EnrolLog(now, i, false))
  {
    hide DistinctParticipants, TracksRecords, TracksRest, EnrolAt;
    EnrolRecordsBack(o, now, i, req);
    EnrolRestBack(o, now, i, req);
  }

  lemma EnrolRecordsBack(o: Options, now: DurableState, i: nat, req: RegisterRequest)
    requires DistinctParticipants(now.participants) && i <= |now.participants| && now.registrationFloor < U64_MAX
    requires i < |now.participants| ==> now.participants[i].nextIncarnation < U64_MAX
    ensures TracksRecords(now, EnrolAt(o, now, i, req, false), EnrolLog(now, i, false))
  {
    hide DistinctParticipants, Enrolled, PutBack, Pops;
    var next, more := EnrolAt(o, now, i, req, false), EnrolLog(now, i, false);
    assert more == [more[0], more[1]];
    if i < |now.participants| {
      EnrolledKeepsId(o, now.participants[i], req, now.registrationFloor + 1);
      RecordsInPlace(now, next, i, more[0], more[1]);
    } else {
      forall k | 0 <= k < |now.participants|
        ensures PutBack(more, next.participants[k]) == now.participants[k]
      {
        PairBack(more[0], more[1], next.participants[k]);
      }
      PairBack(more[0], more[1], next.participants[i]);
    }
  }

  lemma EnrolRestBack(o: Options, now: DurableState, i: nat, req: RegisterRequest)
    requires i <= |now.participants| && now.registrationFloor < U64_MAX
    requires i < |now.participants| ==> now.participants[i].nextIncarnation < U64_MAX
    ensures TracksRest(now, EnrolAt(o, now, i, req, false), EnrolLog(now, i, false))
  {
    hide Rollback, Enrolled, PositionOf;
    var next, more := EnrolAt(o, now, i, req, false), EnrolLog(now, i, false);
    assert more == [more[0], more[1]];
    NoPosition();
    forall fences | |fences| == |next.fences|
      ensures Rollback(Bare(next).(fences := fences), more) == Bare(now).(fences := Resize(fences, |now.fences|))
    {
      RollbackPair(Bare(next).(fences := fences), more[0], more[1]);
      assert Resize(fences, |now.fences|) == fences;
    }
  }

  /** An accepted registration, replacing an incumbent or not. */
  lemma TracksRegistration(o: Options, now: DurableState, next: DurableState, req: RegisterRequest, replaced: Option<Id>,
                           more: seq<UndoAction>)
    requires DistinctParticipants(now.participants) && RegistrationApplied(o, now, next, req, false, replaced, more)
    ensures Tracks(now, next, more)
  {
    hide DistinctParticipants, Tracks, FenceApplied, EnrolAt, EnrolLog, Place;
    var i := Place(now.participants, req.participant);
    if replaced.Some? {
      var fenced, first :|
        && FenceApplied(o, now, fenced, i, replaced.value, Reincarnation, [], first)
        && i == Place(fenced.participants, req.participant)
        && CountersLeft(fenced, req.participant, false) && next == EnrolAt(o, fenced, i, req, false)
        && more == first + EnrolLog(fenced, i, false);
      TracksFence(o, now, fenced, i, replaced.value, Reincarnation, [], first);
      FencedInPlace(o, now, fenced, i, replaced.value, Reincarnation, [], first);
      SameNames(now, fenced, i);
      PlaceLeft(fenced, req);
      TracksEnrolment(o, fenced, i, req);
      TracksOnwards(now, fenced, first, next, EnrolLog(fenced, i, false));
    } else {
      PlaceLeft(now, req);
      TracksEnrolment(o, now, i, req);
    }
  }

  lemma PlaceLeft(d: DurableState, req: RegisterRequest)
    requires CountersLeft(d, req.participant, false)
    ensures var i := Place(d.participants, req.participant);
            i <= |d.participants| && d.registrationFloor < U64_MAX && (i < |d.participants| ==> d.participants[i].nextIncarnation < U64_MAX)
  {
  }

  lemma OnlyHere(ps: seq<Participant>, i: nat)
    requires DistinctParticipants(ps) && i < |ps|
    ensures forall j :: 0 <= j < |ps| && ps[j].id == ps[i].id ==> j == i
  {
  }

  // ---- exactly -----------------------------------------------------------

  /** Every participant past the n-th sorts after every one before. */
  predicate NewcomersLast(ps: seq<Participant>, n: nat) {
    forall i, k :: 0 <= i < n <= k < |ps| ==> IdLess(ps[i], ps[k])
  }

  lemma {:induction false} SortInTwo<T(!new)>(a: seq<T>, b: seq<T>, less: (T, T) -> bool)
    requires StrictOrder(less) && Comparable(a + b, less) && Ordered(a, less)
    requires forall x, y :: x in a && y in b ==> less(x, y)
    ensures Sort(a + b, less) == a + Sort(b, less)
  {
    forall i, j | 0 <= i < j < |b|
      ensures less(b[i], b[j]) || less(b[j], b[i])
    {
      assert (a + b)[|a| + i] == b[i] && (a + b)[|a| + j] == b[j];
    }
    SortOrders(a + b, less);
    SortOrders(b, less);
    var s := Sort(b, less);
    assert forall k :: 0 <= k < |s| ==> s[k] in multiset(s) && s[k] in b;
    OrderedIsUnique(Sort(a + b, less), a + s, less);
  }

  /** Undoing a batch after a failed save, exactly: it leaves no trace if and only if every participant
      the batch created sorts after all that were there, and no fence record was forgotten. */
  lemma BatchRollback(o: Options, d: DurableState, now: DurableState, log: seq<UndoAction>)
    requires SortedById(d.participants) && DistinctParticipants(now.participants) && Tracks(d, now, log) && now.generation < U64_MAX
    ensures var d1 := now.(generation := now.generation + 1);
            Rollback(Canonicalized(d1), log + [UndoGeneration(now.generation)]) == d
            <==> NewcomersLast(now.participants, |d.participants|) && Resize(now.fences, |d.fences|) == d.fences
  {
    hide DistinctParticipants, SortedById, Tracks, Rollback, Canonicalized, NewcomersLast, Resize;
    var c := Canonicalized(now);
    CanonicalizedRefines(now);
    GenerationBack(now, log);
    TrackedIs(d, now, log);
    RollbackPutsBack(c, log);
    if NewcomersLast(now.participants, |d.participants|) {
      NewcomersGo(d, now, log);
    } else if Rollback(c, log) == d {
      NobodyLeft(d, now, log);
    }
  }

  lemma TrackedIs(d: DurableState, now: DurableState, log: seq<UndoAction>)
    requires Tracks(d, now, log)
    ensures Registrational(log) && Pops(log) + |d.participants| == |now.participants| == |Canonicalized(now).participants|
    ensures Rollback(Bare(Canonicalized(now)), log) == Bare(d).(fences := Resize(now.fences, |d.fences|))
  {
    hide Registrational, Rollback;
    assert Bare(now).(fences := now.fences) == Bare(now) == Bare(Canonicalized(now));
  }

  lemma GenerationBack(now: DurableState, log: seq<UndoAction>)
    requires now.generation < U64_MAX
    ensures Rollback(Canonicalized(now.(generation := now.generation + 1)), log + [UndoGeneration(now.generation)])
            == Rollback(Canonicalized(now), log)
  {
    var all := log + [UndoGeneration(now.generation)];
    assert all[..|all| - 1] == log;
  }

  /** What is left of it otherwise: as many records as there were, those with old names as they were, and
      all else as it was but for the fences forgotten. */
  ghost predicate LeavesBatch(d: DurableState, after: DurableState, reached: State) {
    exists c: DurableState ::
      && SortedById(c.participants) && DistinctParticipants(c.participants) && Abs(c) == reached
      && |d.participants| == |after.participants| <= |c.participants|
      && (forall j :: 0 <= j < |after.participants| ==> after.participants[j].id == c.participants[j].id)
      && (forall i, j :: 0 <= i < |d.participants| && 0 <= j < |after.participants| && after.participants[j].id == d.participants[i].id ==>
            after.participants[j] == d.participants[i])
      && after == d.(participants := after.participants, fences := Resize(c.fences, |d.fences|))
  }

  lemma BatchLeaves(d: DurableState, now: DurableState, log: seq<UndoAction>, d1: DurableState)
    requires DistinctParticipants(now.participants) && Tracks(d, now, log) && now.generation < U64_MAX
    requires d1 == now.(generation := now.generation + 1)
    ensures LeavesBatch(d, Rollback(Canonicalized(d1), log + [UndoGeneration(now.generation)]), Abs(d1))
  {
    hide DistinctParticipants, SortedById, Tracks, Rollback, Canonicalized, Resize, ToMap, Pops, PutBack, Registrational;
    var c := Canonicalized(now);
    var after := Rollback(c, log);
    CanonicalizedRefines(now);
    CanonicalizedRefines(d1);
    GenerationBack(now, log);
    TrackedIs(d, now, log);
    RollbackPutsBack(c, log);
    CanonicalizedWith(now, now.generation + 1);
    forall i, j | 0 <= i < |d.participants| && 0 <= j < |after.participants| && after.participants[j].id == d.participants[i].id
      ensures after.participants[j] == d.participants[i]
    {
      OldRecordBack(d, now, log, i, j);
    }
  }

  lemma CanonicalizedWith(now: DurableState, g: U64)
    ensures Canonicalized(now.(generation := g)) == Canonicalized(now).(generation := g)
    ensures Canonicalized(now).fences == now.fences && Canonicalized(now).generation == now.generation
  {
  }

  /** A record under an old name is the old record that the vector has carried along. */
  lemma OldRecordBack(d: DurableState, now: DurableState, log: seq<UndoAction>, i: nat, j: nat)
    requires DistinctParticipants(now.participants) && Tracks(d, now, log) && i < |d.participants|
    requires j < |Canonicalized(now).participants| && Canonicalized(now).participants[j].id == d.participants[i].id
    ensures PutBack(log, Canonicalized(now).participants[j]) == d.participants[i]
  {
    hide DistinctParticipants, Pops, PutBack, Registrational, TracksRest, Sort;
    CanonicalizedRefines(now);
    var q := Canonicalized(now).participants[j];
    assert q in multiset(Canonicalized(now).participants) && q in multiset(now.participants);
    var k :| 0 <= k < |now.participants| && now.participants[k] == q;
    OnlyHere(now.participants, i);
  }

  lemma NewcomersGo(d: DurableState, now: DurableState, log: seq<UndoAction>)
    requires SortedById(d.participants) && DistinctParticipants(now.participants) && Tracks(d, now, log)
    requires NewcomersLast(now.participants, |d.participants|)
    requires PutsBack(Canonicalized(now), log, Rollback(Canonicalized(now), log))
    ensures Rollback(Canonicalized(now), log) == d.(fences := Resize(now.fences, |d.fences|))
  {
    hide DistinctParticipants, Rollback, Sort, Pops, PutBack, IdLess, TracksRest, Resize;
    var n := |d.participants|;
    TrackedIs(d, now, log);
    var a, b := now.participants[..n], now.participants[n..];
    assert now.participants == a + b;
    forall i, j | 0 <= i < j < n
      ensures IdLess(a[i], a[j])
    {
      SameNameSameOrder(d.participants[i], d.participants[j], a[i], a[j]);
    }
    IdLessIsStrict();
    DistinctIsComparable(now.participants);
    SortInTwo(a, b, IdLess);
    assert forall j :: 0 <= j < n ==> Canonicalized(now).participants[j] == now.participants[j];
    assert Rollback(Canonicalized(now), log).participants == d.participants;
  }

  lemma SameNameSameOrder(p: Participant, q: Participant, p': Participant, q': Participant)
    requires p'.id == p.id && q'.id == q.id
    ensures IdLess(p, q) <==> IdLess(p', q')
  {
  }

  /** If the undo were exact, the newcomers would be the ones it dropped from the end. */
  lemma NobodyLeft(d: DurableState, now: DurableState, log: seq<UndoAction>)
    requires SortedById(d.participants) && DistinctParticipants(now.participants) && Tracks(d, now, log)
    requires SortedById(Canonicalized(now).participants)
    requires PutsBack(Canonicalized(now), log, d)
    ensures NewcomersLast(now.participants, |d.participants|)
  {
    hide Sort, Pops, IdLess, Registrational, TracksRest, Rollback;
    var n, q := |d.participants|, Canonicalized(now).participants;
    assert forall m :: 0 <= m < n ==> d.participants[m].id == q[m].id && now.participants[m].id == q[m].id;
    forall i, k | 0 <= i < n <= k < |now.participants|
      ensures IdLess(now.participants[i], now.participants[k])
    {
      assert now.participants[k] in multiset(q);
      var m :| 0 <= m < |q| && q[m] == now.participants[k];
      assert m >= n;
      SameNameSameOrder(q[i], q[m], now.participants[i], now.participants[k]);
    }
  }

  /** The same condition on the states: what the batch created sorts after what was there. */
  predicate CreatesLast(d: DurableState, s: State)
    requires DistinctParticipants(d.participants)
  {
    forall i, id :: 0 <= i < |d.participants| && id in s.participants && id !in Abs(d).participants ==>
      BytesLess(d.participants[i].id.text, id.text)
  }

  lemma CreatesLastIff(d: DurableState, now: DurableState, log: seq<UndoAction>)
    requires DistinctParticipants(d.participants) && DistinctParticipants(now.participants) && Tracks(d, now, log)
    ensures CreatesLast(d, Abs(now)) <==> NewcomersLast(now.participants, |d.participants|)
  {
    hide ToMap, BytesLess, DistinctParticipants, Tracks;
    TracksNames(d, now, log);
    var n := |d.participants|;
    forall k | 0 <= k < |now.participants|
      ensures now.participants[k].id in Abs(now).participants
      ensures now.participants[k].id in Abs(d).participants <==> k < n
    {
      Known(now.participants, k);
      NamedIff(d.participants, now.participants[k].id);
    }
    if NewcomersLast(now.participants, n) {
      forall i, id | 0 <= i < n && id in Abs(now).participants && id !in Abs(d).participants
        ensures BytesLess(d.participants[i].id.text, id.text)
      {
        NamedIff(now.participants, id);
        var k :| 0 <= k < |now.participants| && now.participants[k].id == id;
        assert k >= n && IdLess(now.participants[i], now.participants[k]);
      }
    }
  }

  lemma TracksNames(d: DurableState, now: DurableState, log: seq<UndoAction>)
    requires DistinctParticipants(now.participants) && Tracks(d, now, log)
    ensures |d.participants| <= |now.participants|
    ensures forall i :: 0 <= i < |d.participants| ==> now.participants[i].id == d.participants[i].id
    ensures forall i, k :: 0 <= i < |d.participants| <= k < |now.participants| ==> d.participants[i].id != now.participants[k].id
  {
    hide Registrational, PutBack, Pops, TracksRest;
  }

  lemma NamedIff(ps: seq<Participant>, id: ParticipantId)
    requires DistinctParticipants(ps)
    ensures id in ToMap(ps) <==> exists k :: 0 <= k < |ps| && ps[k].id == id
  {
    hide ToMap, DistinctParticipants;
    ToMapFacts(ps);
    if id in ToMap(ps) {
      var k :| 0 <= k < |ps| && ps[k] == ToMap(ps)[id];
    }
  }

  lemma Known(ps: seq<Participant>, k: nat)
    requires DistinctParticipants(ps) && k < |ps|
    ensures ps[k].id in ToMap(ps)
  {
  }

  lemma SameCreations(d: DurableState, s: State, g: U64)
    requires DistinctParticipants(d.participants)
    ensures CreatesLast(d, s.(generation := g)) <==> CreatesLast(d, s)
  {
  }
}
