/** The authority engine as it runs: one durable state updated in place, maps that index it,
    and an undo log around every save. Each operation is proved to carry out the abstract
    operation of the same name. */
module Runtime {
  import opened Basics
  import opened Model
  import opened Sorting
  import opened Forest
  import opened Authority
  import opened Canonical
  import opened Invariant
  import opened Preservation
  import opened Batch
  import opened Stale
  import opened Retirement
  import opened Runs
  import opened Completeness
  import opened Indexes
  import opened Undoing
  import opened Revival
  import opened Refinement
  import opened Validator
  import opened Scans
  import opened Settlement
  import opened Residue
  import opened BatchUndo

  // ---- sessions ----------------------------------------------------------

  datatype SessionBinding = SessionBinding(id: Id, epoch: U64, participant: ParticipantId, boot: Id, incarnation: U64)

  /** Every session is filed under its boot, and every filed boot names its session. */
  predicate Pairs(sessions: map<Id, SessionBinding>, boots: map<Id, Id>) {
    && (forall s :: s in sessions ==> sessions[s].id == s && sessions[s].boot in boots && boots[sessions[s].boot] == s)
    && (forall b :: b in boots ==> boots[b] in sessions && sessions[boots[b]].boot == b)
  }

  /** Binding an unbound boot keeps the pairing exactly when the session identifier is new. */
  lemma BindingPairs(sessions: map<Id, SessionBinding>, boots: map<Id, Id>, b: SessionBinding)
    requires Pairs(sessions, boots) && b.boot !in boots
    ensures Pairs(sessions[b.id := b], boots[b.boot := b.id]) <==> b.id !in sessions
  {
    if b.id in sessions {
      var stale := sessions[b.id].boot;
      assert boots[b.boot := b.id][stale] == b.id && sessions[b.id := b][b.id].boot != stale;
    }
  }

  /** No two sessions hold the same worker incarnation. */
  lemma OneSessionPerBoot(sessions: map<Id, SessionBinding>, boots: map<Id, Id>, s: Id, t: Id)
    requires Pairs(sessions, boots) && s in sessions && t in sessions && sessions[s].boot == sessions[t].boot
    ensures s == t
  {
    assert boots[sessions[s].boot] == s && boots[sessions[t].boot] == t;
  }

  lemma StructureNeverReplaces(o: Options, s: State, req: RegisterRequest)
    ensures !ScreenStructure(o, s, req).Replace?
  {
  }

  lemma EnrolLogIs(undo: seq<UndoAction>, d: DurableState, i: nat, commit: bool)
    requires i <= |d.participants|
    ensures var first := if i < |d.participants| then UndoUpdate(d.participants[i]) else UndoCreation;
            undo + [first] + [UndoRegistrationFloor(d.registrationFloor)] + (if commit then [UndoGeneration(d.generation)] else [])
            == undo + EnrolLog(d, i, commit)
  {
  }

  method InvalidateParticipants(ps: seq<Participant>) returns (qs: seq<Participant>)
    ensures qs == InvalidateEach(ps)
  {
    qs := [];
    for i := 0 to |ps|
      invariant |qs| == i && forall k :: 0 <= k < i ==> qs[k] == Invalidated(ps[k])
    {
      var p := ps[i];
      if p.hasActiveBoot || p.extras != [] {
        p := p.(revalidationRequired := true);
      }
      p := p.(hasActiveBoot := false, activeBoot := NIL, activeIncarnation := 0, extras := []);
      qs := qs + [p];
    }
  }

  lemma AdvancedEpoch(o: Options, d: DurableState, cause: TransitionCause, transition: Id)
    requires d.epoch < U64_MAX && d.generation < U64_MAX
    ensures var d1 := AdvanceAt(o, d, d.coordinatorBoot, cause, true, transition);
            && d1.epoch == d.epoch + 1 && d1.control == d.control && d1.coordinatorBoot == d.coordinatorBoot
  {
  }

  lemma NotAlreadyActive(o: Options, s: State, fenced: bool, req: RegisterRequest, p: Participant)
    ensures !ScreenGiven(o, s, fenced, req, p).Refuse? ==> FindIncarnation(p, req.boot).None?
  {
    hide FindAttempt, FindIncarnation;
  }

  lemma KeepsNames(o: Options, d: DurableState, d': DurableState, i: nat, boot: Id, reason: FenceReason, note: Bytes, log: seq<UndoAction>)
    requires FenceApplied(o, d, d', i, boot, reason, note, log)
    ensures d'.epoch == d.epoch && d'.coordinatorBoot == d.coordinatorBoot
  {
  }

  lemma IndexStep(ps: seq<Participant>, i: nat)
    requires i < |ps|
    ensures ParticipantIndex(ps[..i + 1]) == ParticipantIndex(ps[..i])[ps[i].id := i]
    ensures BootIndex(ps[..i + 1]) == ClaimBoots(BootIndex(ps[..i]), LiveBoots(ps[i]), i)
    ensures SumLive(ps[..i + 1]) == SumLive(ps[..i]) + LiveCount(ps[i])
  {
    assert ps[..i + 1][..i] == ps[..i];
  }

  /** A log that revives nothing. */
  predicate NoRevokes(undo: seq<UndoAction>) {
    forall k :: 0 <= k < |undo| ==> !undo[k].UndoRevoke?
  }

  /** A log that neither revives a grant nor puts an epoch back. */
  predicate Plain(undo: seq<UndoAction>) {
    NoRevokes(undo) && KeepsEpoch(undo)
  }

  /** Revocation leaves a forest, filed as before. */
  lemma RevokedIndexed(before: seq<Grant>, t: nat, epoch: U64, generation: U64)
    requires IsForest(before) && t < |before|
    ensures var swept := RevokeSubtree(before, t, epoch);
            && IsForest(swept) && GrantIndex(swept) == GrantIndex(before) && GrantChildren(swept) == GrantChildren(before)
            && (generation < U64_MAX ==>
                  var after := swept[t := swept[t].(generation := generation + 1)];
                  && IsForest(after) && GrantIndex(after) == GrantIndex(before) && GrantChildren(after) == GrantChildren(before))
  {
    hide IsForest, GrantIndex, GrantChildren, Descends;
    var swept := RevokeSubtree(before, t, epoch);
    RevocationKeepsForest(before, t, epoch);
    SameGrantIndexes(before, swept);
    if generation < U64_MAX {
      RestampKeepsForest(swept, t, generation + 1);
      SameGrantIndexes(before, swept[t := swept[t].(generation := generation + 1)]);
    }
  }

  /** Grants that differ only in marks and generations are filed alike. */
  lemma {:induction false} SameGrantIndexes(before: seq<Grant>, after: seq<Grant>)
    requires |before| == |after|
    requires forall i :: 0 <= i < |before| ==> after[i].id == before[i].id && after[i].parent == before[i].parent
    ensures GrantIndex(after) == GrantIndex(before) && GrantChildren(after) == GrantChildren(before)
  {
    if before != [] {
      var last := |before| - 1;
      assert forall i :: 0 <= i < last ==> after[..last][i] == after[i] && before[..last][i] == before[i];
      SameGrantIndexes(before[..last], after[..last]);
    }
  }

  class EpochRuntime {
    const o: Options
    var state: DurableState

    var participantIndex: map<ParticipantId, nat>
    var bootIndex: map<Id, nat>
    var fenceIndex: map<Id, seq<nat>>
    var grantIndex: map<Id, nat>
    var grantChildren: map<Id, seq<nat>>
    var activeWorkers: int

    var sessions: map<Id, SessionBinding>
    var bootSessions: map<Id, Id>

    // ---- what holds between operations -----------------------------------

    /** Every map is what a rebuild would compute. */
    ghost predicate IndexesMatch()
      reads this
    {
      && participantIndex == ParticipantIndex(state.participants)
      && bootIndex == BootIndex(state.participants)
      && fenceIndex == FenceIndex(state.fences)
      && grantIndex == GrantIndex(state.grants)
      && grantChildren == GrantChildren(state.grants)
      && activeWorkers == SumLive(state.participants)
    }

    ghost predicate Valid()
      reads this
    {
      IndexesMatch() && ValidState(o, state)
    }

    // ---- opening ----------------------------------------------------------

    /** A runtime over a loaded state, not yet in an epoch of its own. */
    constructor (options: Options, stored: DurableState)
      ensures o == options && state == stored && sessions == map[] && bootSessions == map[]
      ensures IndexesMatch()
    {
      o, state, sessions, bootSessions := options, stored, map[], map[];
      new;
      RebuildIndexes();
    }

    /** Takes the next epoch; an established store loses all live authority. */
    method Establish(boot: Id, transition: Id, io: bool) returns (threw: bool)
      requires Openable(o, state) && DistinctParticipants(state.participants) && FreshTransitionId(Abs(state), transition)
      modifies this`state, this`participantIndex, this`bootIndex, this`fenceIndex, this`grantIndex, this`grantChildren, this`activeWorkers
      ensures var spec := Reopen(o, old(Abs(state)), boot, transition);
              && (threw <==> spec.Threw? || !io)
              && (!threw ==> Valid() && spec.state == Abs(state) && state.epoch == old(state).epoch + 1)
              && (threw && spec.Done? ==>
                    && IndexesMatch()
                    && (state == old(state) <==> |old(state).transitions| < o.limits.maxTransitionHistory))
    {
      hide Inv, DistinctParticipants, ToMap, BootsUnique, ValidDurable, Canonicalized, SortedById, Rollback, ValidState, Reached, AdvanceAt, Authority.MutateEpoch, FreshTransitionId, ParticipantIndex, BootIndex, FenceIndex, GrantIndex, GrantChildren, SumLive, ViableOptions, Openable;
      ghost var d := state;
      var established := state.epoch != 0;
      var undo;
      threw, undo := MutateEpoch(boot, if established then CoordinatorRestart else CoordinatorStart, established, transition);
      if threw {
        RunUndo(undo);
        return;
      }
      OpenSettles(o, d, boot, transition);
      ReachedSaves(o, Reopen(o, Abs(d), boot, transition), state);
      var saved := Persist(undo, io);
      threw := !saved;
    }

    // ---- indexes ----------------------------------------------------------

    method RebuildIndexes()
      modifies this`participantIndex, this`bootIndex, this`fenceIndex, this`grantIndex, this`grantChildren, this`activeWorkers
      ensures IndexesMatch()
    {
      participantIndex, bootIndex, fenceIndex, grantIndex, grantChildren := map[], map[], map[], map[], map[];
      activeWorkers := 0;
      IndexParticipants();
      IndexHistories();
    }

    method IndexParticipants()
      requires participantIndex == map[] && bootIndex == map[] && activeWorkers == 0
      modifies this`participantIndex, this`bootIndex, this`activeWorkers
      ensures participantIndex == ParticipantIndex(state.participants)
      ensures bootIndex == BootIndex(state.participants)
      ensures activeWorkers == SumLive(state.participants)
    {
      var ps := state.participants;
      for i := 0 to |ps|
        invariant participantIndex == ParticipantIndex(ps[..i])
        invariant bootIndex == BootIndex(ps[..i])
        invariant activeWorkers == SumLive(ps[..i])
      {
        IndexStep(ps, i);
        participantIndex := participantIndex[ps[i].id := i];
        IndexLive(ps[i], i);
      }
      assert ps[..|ps|] == ps;
    }

    /** Files the live boots of one participant. */
    method IndexLive(p: Participant, i: nat)
      modifies this`bootIndex, this`activeWorkers
      ensures bootIndex == ClaimBoots(old(bootIndex), LiveBoots(p), i)
      ensures activeWorkers == old(activeWorkers) + LiveCount(p)
    {
      ghost var boots := LiveBoots(p);
      ghost var first := if p.hasActiveBoot then 1 else 0;
      assert boots[..0] == [];
      if p.hasActiveBoot {
        bootIndex := bootIndex[p.activeBoot := i];
        activeWorkers := activeWorkers + 1;
        assert boots[..1] == [p.activeBoot] && [p.activeBoot][..0] == [];
      }
      for j := 0 to |p.extras|
        invariant bootIndex == ClaimBoots(old(bootIndex), boots[..first + j], i)
        invariant activeWorkers == old(activeWorkers) + first + j
      {
        bootIndex := bootIndex[p.extras[j].boot := i];
        activeWorkers := activeWorkers + 1;
        assert boots[..first + j + 1][..first + j] == boots[..first + j];
        assert boots[first + j] == p.extras[j].boot;
      }
      assert boots[..first + |p.extras|] == boots;
    }

    method IndexHistories()
      requires fenceIndex == map[] && grantIndex == map[] && grantChildren == map[]
      modifies this`fenceIndex, this`grantIndex, this`grantChildren
      ensures fenceIndex == FenceIndex(state.fences)
      ensures grantIndex == GrantIndex(state.grants) && grantChildren == GrantChildren(state.grants)
    {
      var fences, grants := state.fences, state.grants;
      for i := 0 to |fences|
        invariant fenceIndex == FenceIndex(fences[..i])
        modifies this`fenceIndex
      {
        assert fences[..i + 1][..i] == fences[..i];
        fenceIndex := PushAt(fenceIndex, fences[i].boot, i);
      }
      assert fences[..|fences|] == fences && grants[..0] == [];
      for i := 0 to |grants|
        invariant grantIndex == GrantIndex(grants[..i])
        invariant grantChildren == GrantChildren(grants[..i])
        modifies this`grantIndex, this`grantChildren
      {
        var g := grants[i];
        assert grants[..i + 1][..i] == grants[..i];
        grantIndex := grantIndex[g.id := i];
        if g.parent.Some? {
          grantChildren := PushAt(grantChildren, g.parent.value, i);
        }
      }
      assert grants[..|grants|] == grants;
    }

    function FindParticipant(id: ParticipantId): (r: Option<nat>)
      reads this`state, this`participantIndex
      ensures r.Some? ==> r.value < |state.participants|
    {
      if id in participantIndex && participantIndex[id] < |state.participants| then Some(participantIndex[id]) else None
    }

    /** The index finds exactly the participants there are. */
    lemma Finds(id: ParticipantId)
      requires DistinctParticipants(state.participants) && participantIndex == ParticipantIndex(state.participants)
      ensures FindParticipant(id).Some? <==> id in Abs(state).participants
      ensures FindParticipant(id).Some? ==>
                var i := FindParticipant(id).value;
                && state.participants[i].id == id && Abs(state).participants[id] == state.participants[i]
                && PositionOf(state.participants, id) == Some(i)
      ensures FindParticipant(id).None? ==> PositionOf(state.participants, id).None?
    {
      ParticipantIndexFinds(state.participants, id);
      if FindParticipant(id).Some? {
        PositionIs(state.participants, FindParticipant(id).value);
      } else {
        assert forall i :: 0 <= i < |state.participants| ==> state.participants[i].id in ToMap(state.participants);
      }
    }

    /** Looks a fence up through the index, never rechecking the boot at a listed position. */
    method LookupFenceOf(i: nat, boot: Id) returns (r: FenceLookup)
      requires i < |state.participants|
      ensures r == IndexedLookup(state, fenceIndex, i, boot)
    {
      var p := state.participants[i];
      if boot in fenceIndex {
        var positions := fenceIndex[boot];
        for k := 0 to |positions|
          invariant FirstListed(state.fences, positions, p.id) == FirstListed(state.fences, positions[k..], p.id)
        {
          assert positions[k..][1..] == positions[k + 1..];
          if positions[k] < |state.fences| && state.fences[positions[k]].participant == p.id {
            return FenceLookup(true, Some(state.fences[positions[k]]));
          }
        }
      }
      for k := 0 to |p.fencedBoots|
        invariant boot !in p.fencedBoots[..k]
      {
        if p.fencedBoots[k] == boot {
          return FenceLookup(true, None);
        }
      }
      return FenceLookup(false, None);
    }

    // ---- the undo log and the save ----------------------------------------

    /** The grants are a delegation forest and their maps are up to date. */
    ghost predicate GrantsIndexed()
      reads this`state, this`grantIndex, this`grantChildren
    {
      IsForest(state.grants) && grantIndex == GrantIndex(state.grants) && grantChildren == GrantChildren(state.grants)
    }

    /** The log can be run: a revival needs the grants indexed, and is the oldest of two actions. */
    ghost predicate Undoable(undo: seq<UndoAction>)
      reads this`state, this`grantIndex, this`grantChildren
    {
      NoRevokes(undo) || (GrantsIndexed() && |undo| == 2 && undo[0].UndoRevoke? && undo[1].UndoGeneration?)
    }

    /** Puts a revoked subtree back, walking it through the grant maps. */
    method UndoRevoked(root: Id, generation: U64, revokedAt: U64) returns (grants: seq<Grant>)
      requires GrantsIndexed()
      ensures grants == UndoRevocation(state.grants, root, generation, revokedAt)
    {
      hide RestoreSubtree, GrantIndex, GrantChildren, IndexOf, Rooted;
      grants := state.grants;
      GrantIndexFinds(grants, root);
      var t := FindGrant(root);
      if t.Some? {
        GrantIndexIndexes(grants);
        GrantChildrenIndexes(grants);
        GrantChildrenDistinct(grants);
        grants := ReviveSubtree(grants, grantIndex, grantChildren, t.value);
        grants := grants[t.value := grants[t.value].(generation := generation, revokedAtEpoch := revokedAt)];
      }
    }

    method Undo(action: UndoAction)
      requires action.UndoRevoke? ==> GrantsIndexed()
      modifies this`state
      ensures state == UndoOne(old(state), action)
      ensures action.UndoGeneration? ==> state.grants == old(state).grants
    {
      hide FindAttempt, UndoRevocation, UnfencedFields, GrantsIndexed;
      var d := state;
      match action
      case UndoGeneration(g) => state := d.(generation := g);
      case UndoRegistrationFloor(f) => state := d.(registrationFloor := f);
      case UndoCreation =>
        if d.participants != [] {
          state := d.(participants := d.participants[..|d.participants| - 1]);
        }
      case UndoUpdate(previous) =>
        var i := ScanPositions(d.participants, previous.id);
        if i.Some? {
          state := d.(participants := d.participants[i.value := previous]);
        }
      case UndoFence(saved, floor, count) =>
        state := d.(fenceFloor := floor, fences := Resize(d.fences, count));
        var i := ScanPositions(d.participants, saved.id);
        if i.Some? {
          state := state.(participants := d.participants[i.value := UnfencedFields(d.participants[i.value], saved)]);
        }
      case UndoPreventive(saved, floor, count) =>
        state := d.(fenceFloor := floor, fences := Resize(d.fences, count));
        var i := ScanPositions(d.participants, saved.id);
        if i.Some? {
          var p := d.participants[i.value].(fenceGeneration := saved.fenceGeneration);
          state := state.(participants := d.participants[i.value := p]);
        }
      case UndoGrant =>
        if d.grants != [] {
          state := d.(grants := d.grants[..|d.grants| - 1]);
        }
      case UndoRevoke(root, generation, revokedAt, count) =>
        var grants := UndoRevoked(root, generation, revokedAt);
        state := d.(control := Resize(d.control, count), grants := grants);
      case UndoRetire(saved) =>
        var i := ScanPositions(d.participants, saved.id);
        if i.Some? {
          var p := d.participants[i.value].(
            incarnationFloor := saved.incarnationFloor, retired := saved.retired, revalidationRequired := saved.revalidationRequired);
          state := d.(participants := d.participants[i.value := p]);
        }
      case UndoEpoch(epoch, boot, generation, ps, count) =>
        state := d.(epoch := epoch, coordinatorBoot := boot, generation := generation, participants := ps,
                    transitions := Resize(d.transitions, count));
    }

    /** Runs the log from its newest action to its oldest. */
    method RunUndo(undo: seq<UndoAction>)
      requires Undoable(undo)
      modifies this`state
      ensures state == Rollback(old(state), undo)
      ensures KeepsEpoch(undo) ==> state.epoch == old(state).epoch
    {
      if KeepsEpoch(undo) {
        RollbackKeepsEpoch(state, undo);
      }
      hide UndoOne, KeepsEpoch, IsForest, GrantIndex, GrantChildren;
      var k := |undo|;
      assert undo[..k] == undo;
      while k > 0
        invariant 0 <= k <= |undo|
        invariant Rollback(state, undo[..k]) == Rollback(old(state), undo)
        invariant NoRevokes(undo) || k == 0 || GrantsIndexed()
      {
        assert undo[..k][..k - 1] == undo[..k - 1];
        k := k - 1;
        Undo(undo[k]);
      }
    }

    method Canonicalize()
      requires DistinctParticipants(state.participants)
      modifies this`state
      ensures state == Canonicalized(old(state)) && state.grants == old(state).grants && state.epoch == old(state).epoch
    {
      var sorted := IsSorted(state.participants);
      if sorted {
        CanonicalizedSorted(state);
      } else {
        state := state.(participants := Sort(state.participants, IdLess));
      }
    }

    /** The durability barrier. `io` says whether the write itself goes through. */
    method Persist(undo: seq<UndoAction>, io: bool) returns (saved: bool)
      requires DistinctParticipants(state.participants) && Undoable(undo)
      modifies this`state, this`participantIndex, this`bootIndex, this`fenceIndex, this`grantIndex, this`grantChildren, this`activeWorkers
      ensures IndexesMatch()
      ensures saved <==> io && ValidDurable(Canonicalized(old(state)))
      ensures state == if saved then Canonicalized(old(state)) else Rollback(Canonicalized(old(state)), undo)
      ensures KeepsEpoch(undo) ==> state.epoch == old(state).epoch
    {
      hide Rollback, ValidDurable, Canonicalized, KeepsEpoch;
      Canonicalize();
      var accepted := CheckDurable(state);
      saved := accepted && io;
      if !saved {
        RunUndo(undo);
      }
      RebuildIndexes();
    }

    // ---- fencing ----------------------------------------------------------

    method BumpGeneration(undo: seq<UndoAction>) returns (threw: bool, undone: seq<UndoAction>)
      modifies this`state
      ensures threw <==> old(state).generation == U64_MAX
      ensures undone == undo + [UndoGeneration(old(state).generation)] && (Plain(undo) ==> Plain(undone))
      ensures state == if threw then old(state) else old(state).(generation := old(state).generation + 1)
    {
      undone := undo + [UndoGeneration(state.generation)];
      var next := Next(state.generation);
      threw := next.None?;
      if !threw {
        state := state.(generation := next.value);
      }
    }

    /** The participants can be found through their index. */
    ghost predicate Findable()
      reads this`state, this`participantIndex
    {
      DistinctParticipants(state.participants) && participantIndex == ParticipantIndex(state.participants)
    }

    /** Midway through an operation: participants can be found, the worker count is right, and no boot
        is listed twice. The fence index may lag behind. */
    ghost predicate Consistent()
      reads this`state, this`participantIndex, this`activeWorkers
    {
      Findable() && activeWorkers == SumLive(state.participants) && Unrepeated(state.participants)
    }

    lemma ValidIsConsistent()
      requires Valid()
      ensures Consistent()
    {
      hide Inv, ToMap, DistinctParticipants, BootsUnique;
      InvUnrepeated(o, state);
    }

    /** Removes the incarnation from the live set and records the fence. */
    method FenceLive(i: nat, boot: Id, sequence: U64, reason: FenceReason, note: Bytes, undo: seq<UndoAction>)
      returns (threw: bool, undone: seq<UndoAction>)
      requires i < |state.participants|
      modifies this`state, this`activeWorkers
      ensures threw <==> old(state).fenceFloor == U64_MAX || old(state).generation == U64_MAX
      ensures state.epoch == old(state).epoch
      ensures activeWorkers == old(activeWorkers) - 1 && (Plain(undo) ==> Plain(undone))
      ensures !threw ==>
                && state == FenceAt(o, old(state), i, boot, sequence, reason, note)
                && undone == undo + FenceLog(old(state), i)
    {
      hide RemoveLive, Remember;
      var d, p := state, state.participants[i];
      undone := undo + [UndoFence(p, d.fenceFloor, |d.fences|)];
      p := TakesOut(p, boot);
      activeWorkers := activeWorkers - 1;
      if sequence > p.incarnationFloor {
        p := p.(incarnationFloor := sequence);
      }
      var next := Next(state.fenceFloor);
      if next.None? {
        state := state.(participants := d.participants[i := p]);
        return true, undone;
      }
      p := p.(fenceGeneration := next.value, fencedBoots := Remember(p.fencedBoots, o.limits.maxFencedBoots, boot));
      var record := FenceRecord(boot, p.id, reason, next.value, d.epoch, sequence, note);
      state := state.(fenceFloor := next.value, participants := d.participants[i := p],
                      fences := Remember(d.fences, o.limits.maxRecentFences, record));
      threw, undone := BumpGeneration(undone);
      assert undo + FenceLog(d, i) == undo + [UndoFence(d.participants[i], d.fenceFloor, |d.fences|)] + [UndoGeneration(d.generation)];
    }

    method FencePreventively(i: nat, boot: Id, reason: FenceReason, note: Bytes, undo: seq<UndoAction>)
      returns (threw: bool, undone: seq<UndoAction>)
      requires i < |state.participants|
      modifies this`state
      ensures threw <==> old(state).fenceFloor == U64_MAX || old(state).generation == U64_MAX
      ensures state.epoch == old(state).epoch && (Plain(undo) ==> Plain(undone))
      ensures !threw ==>
                && state == PreventAt(old(state), i, boot, reason, note)
                && undone == undo + PreventLog(old(state), i)
    {
      var d, p := state, state.participants[i];
      var next := Next(state.fenceFloor);
      if next.None? {
        return true, undo;
      }
      undone := undo + [UndoPreventive(p, d.fenceFloor, |d.fences|)];
      var record := FenceRecord(boot, p.id, reason, next.value, d.epoch, 0, note);
      state := state.(fenceFloor := next.value, participants := d.participants[i := p.(fenceGeneration := next.value)],
                      fences := d.fences + [record]);
      threw, undone := BumpGeneration(undone);
      assert undo + PreventLog(d, i) == undo + [UndoPreventive(p, d.fenceFloor, |d.fences|)] + [UndoGeneration(d.generation)];
    }

    /** Records a fence for one boot, looked up through an index filed over the history `filed`. */
    method RecordFence(id: ParticipantId, boot: Id, reason: FenceReason, note: Bytes, defensive: bool, undo: seq<UndoAction>,
                       ghost filed: seq<FenceRecord>)
      returns (threw: bool, result: FenceResult, mutated: bool, undone: seq<UndoAction>)
      requires Consistent() && fenceIndex == FenceIndex(filed)
      modifies this`state, this`activeWorkers
      ensures var spec := RecordFenceThrough(o, old(Abs(state)), filed, id, boot, reason, note, defensive);
              if threw then spec.Threw? else Consistent() && spec == Done(Abs(state), result, mutated)
      ensures state.epoch == old(state).epoch && (Plain(undo) ==> Plain(undone))
      ensures !threw ==> state.coordinatorBoot == old(state).coordinatorBoot
      ensures !threw && !mutated ==> state == old(state) && undone == undo && activeWorkers == old(activeWorkers)
      ensures !threw && mutated ==>
                && old(FindParticipant(id)).Some? && undo <= undone
                && FenceApplied(o, old(state), state, old(FindParticipant(id)).value, boot, reason, note, undone[|undo|..])
    {
      hide FenceAt, PreventAt, FenceLog, PreventLog, DistinctBoots, Without, DistinctParticipants, ToMap, ParticipantIndex, SumLive, FindIncarnation, FenceApplied, IndexedLookup, RecordFenceGiven, LookupThrough, FenceIndex;
      Finds(id);
      var i := FindParticipant(id);
      ghost var s := Abs(state);
      ghost var spoken := LookupThrough(s, filed, id, boot);
      if i.None? {
        UnknownFence(o, s, spoken, id, boot, reason, note, defensive);
        return false, FenceResult(FenceUnknownParticipant, state.epoch, None, None), false, undo;
      }
      var d, p := state, state.participants[i.value];
      var lookup := LookupFenceOf(i.value, boot);
      IndexedIsThrough(d, filed, i.value, boot);
      FenceRefusals(o, s, lookup, id, boot, reason, note, defensive);
      if lookup.fenced {
        var incarnation := if lookup.record.Some? then Some(lookup.record.value.incarnation) else None;
        return false, FenceResult(AlreadyFenced, d.epoch, Some(p.fenceGeneration), incarnation), false, undo;
      }
      var sequence := ScanIncarnation(p, boot);
      if sequence.None? && !defensive {
        return false, FenceResult(AlreadyFenced, d.epoch, Some(p.fenceGeneration), None), false, undo;
      }
      if sequence.None? && |d.fences| >= o.limits.maxRecentFences {
        return false, FenceResult(FenceLimit, d.epoch, None, None), false, undo;
      }
      if sequence.None? {
        threw, undone := FencePreventively(i.value, boot, reason, note, undo);
      } else {
        threw, undone := FenceLive(i.value, boot, sequence.value, reason, note, undo);
      }
      if threw {
        return true, FenceResult(FenceMalformed, 0, None, None), false, undone;
      }
      mutated := true;
      result := FenceResult(FenceDone, d.epoch, Some(d.fenceFloor + 1), sequence);
      ghost var log := undone[|undo|..];
      assert FenceApplied(o, d, state, i.value, boot, reason, note, log) by {
        AppliedIs(o, d, state, i.value, boot, reason, note, log);
      }
      FenceAppliedRefines(o, d, state, i.value, boot, reason, note, log);
      FenceAppliedCounts(o, d, state, i.value, boot, reason, note, log);
      FenceAppliedUnrepeated(o, d, state, i.value, boot, reason, note, log);
      FenceMeets(o, d, state, i.value, boot, reason, note, defensive, lookup, log);
      KeepsNames(o, d, state, i.value, boot, reason, note, log);
    }

    /** Operator fence. A failed save undoes the fence but not the memory of the attempt. */
    method FenceWorker(req: FenceRequest, io: bool) returns (threw: bool, result: FenceResult)
      requires Valid()
      modifies this`state, this`participantIndex, this`bootIndex, this`fenceIndex, this`grantIndex, this`grantChildren, this`activeWorkers
      ensures threw ==> state.epoch == old(state).epoch
      ensures var spec := Authority.FenceWorker(o, old(Abs(state)), req);
              && (threw <==> spec.Threw? || (spec.mutated && !io))
              && (!threw ==> Valid() && spec == Done(Abs(state), result, spec.mutated) && (!spec.mutated ==> state == old(state)))
              && (threw && spec.Done? ==>
                    && IndexesMatch() && state != old(state) && Remembers(state, req.participant, req.attempt)
                    && Leaves(o, old(state), state, req.participant, req.attempt, spec.state))
    {
      hide Inv, DistinctParticipants, ToMap, BootsUnique, RecordFenceGiven, LookupThrough, LookupFence, FindAttempt, ValidDurable, Canonicalized, SortedById, Rollback, ValidState, Reached, FenceApplied, RememberAt, PositionOf, Unrepeated, Leaves;
      ValidStateFacts(o, state);
      if req.attempt == NIL || req.participant.text == [] || req.boot == NIL {
        return false, FenceResult(FenceMalformed, state.epoch, None, None);
      }
      if req.expectedEpoch != state.epoch {
        return false, FenceResult(FenceStaleEpoch, state.epoch, None, None);
      }
      Finds(req.participant);
      var i := FindParticipant(req.participant);
      if i.None? {
        return false, FenceResult(FenceUnknownParticipant, state.epoch, None, None);
      }
      var digest := o.digest(Fencing(req));
      var previous := ScanAttempts(state.participants[i.value].idempotency, req.attempt);
      if previous.Some? {
        if previous.value.semantic != digest {
          return false, FenceResult(FenceConflict, state.epoch, None, None);
        }
        var generation := if previous.value.auxiliary != 0 then Some(previous.value.auxiliary) else None;
        return false, FenceResult(FenceOutcomeOf(previous.value.outcome), state.epoch, generation, None);
      }
      FreshThrough(Abs(state), req.participant, req.boot);
      ValidIsConsistent();
      ghost var d := state;
      var mutated, undo;
      threw, result, mutated, undo := RecordFence(req.participant, req.boot, req.reason, req.note, true, [], state.fences);
      if threw {
        RunUndo(undo);
        return;
      }
      if !mutated {
        return;
      }
      ghost var d1 := state;
      assert undo[0..] == undo;
      var record := AttemptRecord(req.attempt, FenceKind, digest, FenceCode(result.outcome),
                                  if result.fenceGeneration.Some? then result.fenceGeneration.value else 0,
                                  if result.incarnation.Some? then result.incarnation.value else 0, NIL);
      var target := FindParticipant(req.participant);
      if target.Some? {
        RememberAttempt(target.value, record);
      }
      FenceRequestSettles(o, d, d1, i.value, req, result, undo, record);
      FenceLeaves(o, d, d1, i.value, req.boot, req.reason, req.note, undo, record);
      ReachedSaves(o, Authority.FenceWorker(o, Abs(d), req), state);
      var saved := Persist(undo, io);
      threw := !saved;
    }

    method RememberAttempt(i: nat, record: AttemptRecord)
      requires i < |state.participants|
      modifies this`state
      ensures state == RememberAt(o, old(state), i, record) && state == old(state).(participants := state.participants)
    {
      var p := state.participants[i];
      p := p.(idempotency := Remember(p.idempotency, o.limits.maxIdempotencyRecords, record));
      state := state.(participants := state.participants[i := p]);
    }

    // ---- registration -----------------------------------------------------

    method ScopesRegistrable(scopes: seq<Scope>) returns (r: bool)
      ensures r <==> RegistrableScopes(o, scopes)
    {
      for k := 0 to |scopes|
        invariant RegistrableScopes(o, scopes[..k])
      {
        if !o.registrable(scopes[k].kind) {
          return false;
        }
      }
      return true;
    }

    method ScreenRequest(req: RegisterRequest) returns (verdict: Verdict)
      requires DistinctParticipants(state.participants)
      ensures verdict == ScreenStructure(o, Abs(state), req)
    {
      hide IsBoundedText, RegistrableScopes;
      if req.attempt == NIL || req.participant.text == [] || req.boot == NIL
         || !IsBoundedText(req.provenance, o.limits.maxStringSize) || req.scopes == [] {
        return Refuse(RefusalHere(RegisterMalformed));
      }
      if |req.scopes| > o.limits.maxScopesPerGrant {
        return Refuse(RefusalHere(RegisterLimit));
      }
      if req.policy == MultiIncarnation && !o.allowMulti {
        return Refuse(RefusalHere(RegisterUnauthorized));
      }
      var registrable := ScopesRegistrable(req.scopes);
      if !registrable {
        return Refuse(RefusalHere(RegisterUnauthorized));
      }
      if req.expectedEpoch != state.epoch {
        return Refuse(RefusalHere(RegisterStaleEpoch));
      }
      return Admit;
    }

    function RefusalHere(outcome: RegistrationOutcome): RegistrationResult
      reads this`state
    {
      RegistrationResult(outcome, state.epoch, state.coordinatorBoot, None, None, false)
    }

    /** The checks that involve the participant's record, at position `i`. */
    method ScreenRecord(i: nat, req: RegisterRequest) returns (verdict: Verdict)
      requires Findable() && i < |state.participants| && state.participants[i].id == req.participant
      ensures verdict == ScreenGiven(o, Abs(state), IndexedLookup(state, fenceIndex, i, req.boot).fenced, req, state.participants[i])
      ensures verdict.Replace? ==>
                o.replacement == ReplaceIncumbent && FindIncarnation(state.participants[i], verdict.incumbent).Some?
    {
      hide IndexedLookup, DistinctParticipants, ToMap, ParticipantIndex, FindAttempt;
      var p := state.participants[i];
      if p.retired {
        return Refuse(RefusalHere(RetiredParticipant));
      }
      var lookup := LookupFenceOf(i, req.boot);
      if lookup.fenced {
        return Refuse(RefusalHere(RegisterStaleBoot));
      }
      var previous := ScanAttempts(p.idempotency, req.attempt);
      if previous.Some? {
        if previous.value.semantic != o.digest(Registering(req)) {
          return Refuse(RefusalHere(ConflictingAttempt));
        }
        var incarnation := if previous.value.auxiliaryHigh != 0 then Some(previous.value.auxiliaryHigh) else None;
        return Refuse(RegistrationResult(RegistrationOutcomeOf(previous.value.outcome), state.epoch, state.coordinatorBoot,
                                         Some(previous.value.auxiliary), incarnation, true));
      }
      if req.expectedGeneration.Some? && req.expectedGeneration.value != p.registrationGeneration {
        return Refuse(RefusalHere(RegisterRevalidation));
      }
      if p.policy != req.policy {
        return Refuse(RefusalHere(ConflictingIncarnation));
      }
      var current := ScanIncarnation(p, req.boot);
      if current.Some? {
        return Refuse(RegistrationResult(AlreadyActive, state.epoch, state.coordinatorBoot,
                                         Some(p.registrationGeneration), current, false));
      }
      if (p.hasActiveBoot || p.extras != []) && p.policy == SingleIncarnation {
        if o.replacement == RequireExplicitFence {
          return Refuse(RefusalHere(ConflictingIncarnation));
        }
        return Replace(if p.hasActiveBoot then p.activeBoot else p.extras[0].boot);
      }
      return Admit;
    }

    /** Every check that precedes a mutation. */
    method ScreenRegistration(req: RegisterRequest, ghost filed: seq<FenceRecord>) returns (verdict: Verdict)
      requires Findable() && fenceIndex == FenceIndex(filed)
      ensures verdict == ScreenThrough(o, Abs(state), filed, req)
      ensures verdict.Admit? ==>
                var i := Place(state.participants, req.participant);
                i < |state.participants| ==> FindIncarnation(state.participants[i], req.boot).None?
      ensures verdict.Replace? ==>
                && o.replacement == ReplaceIncumbent
                && var i := Place(state.participants, req.participant);
                   i < |state.participants| && FindIncarnation(state.participants[i], verdict.incumbent).Some?
                   && FindIncarnation(state.participants[i], req.boot).None?
    {
      hide ScreenStructure, ScreenGiven, DistinctParticipants, ToMap, ParticipantIndex, FenceIndex, FindIncarnation, PositionOf, LookupThrough, IndexedLookup;
      verdict := ScreenRequest(req);
      if verdict.Refuse? {
        return;
      }
      assert !verdict.Replace? by {
        StructureNeverReplaces(o, Abs(state), req);
      }
      Finds(req.participant);
      var i := FindParticipant(req.participant);
      if i.Some? {
        IndexedIsThrough(state, filed, i.value, req.boot);
        NotAlreadyActive(o, Abs(state), IndexedLookup(state, fenceIndex, i.value, req.boot).fenced, req, state.participants[i.value]);
        verdict := ScreenRecord(i.value, req);
      } else {
        ToMapSize(state.participants);
        if |state.participants| >= o.limits.maxParticipants {
          verdict := Refuse(RefusalHere(RegisterLimit));
        }
      }
    }

    /** Finds the participant's record, or appends a fresh one, logging how to undo what follows. */
    method PlaceRecord(req: RegisterRequest, undo: seq<UndoAction>) returns (i: nat, undone: seq<UndoAction>)
      requires Findable()
      modifies this`state, this`participantIndex
      ensures i == Place(old(state).participants, req.participant) && i < |state.participants|
      ensures state == if i < |old(state).participants| then old(state)
                       else old(state).(participants := old(state).participants + [FreshParticipant(req.participant, req.policy)])
      ensures i == |old(state).participants| || participantIndex == old(participantIndex)
      ensures participantIndex[req.participant := i] == old(participantIndex)[req.participant := i]
      ensures undone == undo + [if i < |old(state).participants| then UndoUpdate(old(state).participants[i]) else UndoCreation]
      ensures Plain(undo) ==> Plain(undone)
    {
      hide DistinctParticipants, ToMap, ParticipantIndex, PositionOf;
      Finds(req.participant);
      PlaceIs(state, req.participant);
      var found := FindParticipant(req.participant);
      i := if found.Some? then found.value else |state.participants|;
      if found.None? {
        state := state.(participants := state.participants + [FreshParticipant(req.participant, req.policy)]);
        participantIndex := participantIndex[req.participant := i];
        undone := undo + [UndoCreation];
      } else {
        undone := undo + [UndoUpdate(state.participants[i])];
      }
    }

    /** Issues the next sequence to the request's boot, creating the participant if need be. */
    method EnrolParticipant(req: RegisterRequest, commit: bool, undo: seq<UndoAction>)
      returns (threw: bool, generation: U64, incarnation: U64, undone: seq<UndoAction>)
      requires Findable()
      modifies this`state, this`activeWorkers, this`participantIndex, this`bootIndex
      ensures threw <==> !CountersLeft(old(state), req.participant, commit)
      ensures state.fences == old(state).fences && state.epoch == old(state).epoch && (Plain(undo) ==> Plain(undone))
      ensures !threw ==>
                var i := Place(old(state).participants, req.participant);
                && state == EnrolAt(o, old(state), i, req, commit) && undone == undo + EnrolLog(old(state), i, commit)
                && participantIndex == old(participantIndex)[req.participant := i]
                && activeWorkers == old(activeWorkers) + 1
                && generation == old(state).registrationFloor + 1 && incarnation == NextSequence(old(state), req.participant)
    {
      hide DistinctParticipants, ToMap, ParticipantIndex, PositionOf, Enrolled, Remember;
      var d := state;
      generation, incarnation := 0, 0;
      var i;
      i, undone := PlaceRecord(req, undo);
      var floor := Next(state.registrationFloor);
      if floor.None? {
        return true, generation, incarnation, undone;
      }
      undone := undone + [UndoRegistrationFloor(state.registrationFloor)];
      state := state.(registrationFloor := floor.value);
      var p := state.participants[i];
      generation, incarnation := floor.value, p.nextIncarnation;
      var next := Next(incarnation);
      if next.None? {
        return true, generation, incarnation, undone;
      }
      var q := EnrolRecord(p, req, generation, incarnation);
      activeWorkers := activeWorkers + 1;
      participantIndex := participantIndex[req.participant := i];
      bootIndex := bootIndex[req.boot := i];
      state := state.(participants := state.participants[i := q]);
      assert state.participants == EnrolAt(o, d, i, req, false).participants;
      threw := false;
      if commit {
        threw, undone := BumpGeneration(undone);
      }
      EnrolLogIs(undo, d, i, commit);
    }

    method EnrolRecord(p: Participant, req: RegisterRequest, generation: U64, incarnation: U64) returns (q: Participant)
      requires p.nextIncarnation < U64_MAX && incarnation == p.nextIncarnation
      ensures q == Enrolled(o, p, req, generation)
    {
      hide Remember;
      q := p.(registrationGeneration := generation, nextIncarnation := incarnation + 1, policy := req.policy, scopes := req.scopes,
              revalidationRequired := false, retired := false,
              acceptedRegistrations := (p.acceptedRegistrations + 1) % (U64_MAX + 1));
      if !q.hasActiveBoot {
        q := q.(hasActiveBoot := true, activeBoot := req.boot, activeIncarnation := incarnation);
      } else {
        q := q.(extras := q.extras + [ActiveIncarnation(req.boot, incarnation, generation)]);
      }
      var record := RegistrationRecord(o, req, generation, incarnation);
      q := q.(idempotency := Remember(q.idempotency, o.limits.maxIdempotencyRecords, record));
    }

    /** Fences the incumbent a registration replaces; `ok` unless the fence was refused. */
    method FenceIncumbent(id: ParticipantId, incumbent: Id, undo: seq<UndoAction>, ghost filed: seq<FenceRecord>)
      returns (threw: bool, ok: bool, mutated: bool, undone: seq<UndoAction>)
      requires Consistent() && fenceIndex == FenceIndex(filed)
      modifies this`state, this`activeWorkers
      ensures var spec := RecordFenceThrough(o, old(Abs(state)), filed, id, incumbent, Reincarnation, [], false);
              && (threw <==> spec.Threw?)
              && (!threw ==> && Consistent() && spec.state == Abs(state) && spec.mutated == mutated
                             && (ok <==> spec.result.outcome == FenceDone || spec.result.outcome == AlreadyFenced) && (mutated ==> ok))
      ensures state.epoch == old(state).epoch && (Plain(undo) ==> Plain(undone))
      ensures !threw ==> state.coordinatorBoot == old(state).coordinatorBoot && undo <= undone
      ensures !threw && !mutated ==> state == old(state) && undone == undo && activeWorkers == old(activeWorkers)
      ensures !threw && mutated ==>
                var i := Place(old(state).participants, id);
                && i == Place(state.participants, id)
                && FenceApplied(o, old(state), state, i, incumbent, Reincarnation, [], undone[|undo|..])
    {
      hide DistinctParticipants, ToMap, ParticipantIndex, SumLive, FenceIndex, RecordFenceThrough, FenceApplied, PositionOf, FindIncarnation, Unrepeated;
      ghost var d := state;
      Finds(id);
      var fence;
      threw, fence, mutated, undone := RecordFence(id, incumbent, Reincarnation, [], false, undo, filed);
      ok := fence.outcome == FenceDone || fence.outcome == AlreadyFenced;
      MutatedIsFenced(o, Abs(d), filed, id, incumbent, Reincarnation, [], false);
      if !threw && mutated {
        FencedPlace(o, d, state, id, incumbent, undone[|undo|..]);
      }
    }

    /** One registration, up to the save. `replaced` names the incumbent it fenced, if any. */
    method ApplyRegistration(req: RegisterRequest, commit: bool, undo: seq<UndoAction>, ghost filed: seq<FenceRecord>)
      returns (threw: bool, result: RegistrationResult, mutated: bool, undone: seq<UndoAction>, ghost replaced: Option<Id>)
      requires Consistent() && fenceIndex == FenceIndex(filed)
      modifies this`state, this`activeWorkers, this`participantIndex, this`bootIndex
      ensures var spec := RegisterThrough(o, old(Abs(state)), filed, req, commit);
              if threw then spec.Threw? else Consistent() && spec == Done(Abs(state), result, mutated)
      ensures state.epoch == old(state).epoch && (Plain(undo) ==> Plain(undone))
      ensures !threw && !mutated ==>
                && state == old(state) && undone == undo && activeWorkers == old(activeWorkers)
                && participantIndex == old(participantIndex) && bootIndex == old(bootIndex)
      ensures !threw && mutated && result.outcome == Registered ==>
                && undo <= undone && RegistrationApplied(o, old(state), state, req, commit, replaced, undone[|undo|..])
                && replaced == Ousted(o, old(Abs(state)), filed, req)
      ensures !threw && mutated && result.outcome != Registered ==>
                && undo <= undone && replaced.Some?
                && FenceApplied(o, old(state), state, Place(old(state).participants, req.participant), replaced.value, Reincarnation, [],
                                undone[|undo|..])
      ensures o.replacement == RequireExplicitFence ==> replaced.None? && (!threw && mutated ==> result.outcome == Registered)
      ensures replaced.Some? ==>
                var i := Place(old(state).participants, req.participant);
                i < |old(state).participants| && FindIncarnation(old(state).participants[i], replaced.value).Some?
    {
      hide DistinctParticipants, ToMap, ParticipantIndex, SumLive, FenceIndex, FindIncarnation, ScreenThrough, RecordFenceThrough, EnrolWithinLimits, EnrolAt, EnrolLog, FenceApplied, Place, CountersLeft, RegistrationApplied, Unrepeated;
      ghost var d := state;
      replaced := None;
      var verdict := ScreenRegistration(req, filed);
      if verdict.Refuse? {
        return false, verdict.result, false, undo, None;
      }
      mutated, undone := false, undo;
      if verdict.Replace? {
        var ok;
        threw, ok, mutated, undone := FenceIncumbent(req.participant, verdict.incumbent, undo, filed);
        if threw {
          return true, RefusalHere(ConflictingIncarnation), false, undone, None;
        }
        if !ok {
          return false, RefusalHere(ConflictingIncarnation), mutated, undone, None;
        }
        if mutated {
          replaced := Some(verdict.incumbent);
        }
      }
      PlaceIs(d, req.participant);
      ghost var fenced, first := state, undone;
      var epoch, coordinator := state.epoch, state.coordinatorBoot;
      EnrolMeets(o, fenced, req, commit, mutated);
      if activeWorkers >= o.limits.maxActiveWorkers {
        return false, RefusalHere(RegisterLimit), mutated, undone, replaced;
      }
      var generation, incarnation;
      threw, generation, incarnation, undone := EnrolParticipant(req, commit, undone);
      if threw {
        return true, RefusalHere(RegisterLimit), false, undone, None;
      }
      mutated := true;
      result := RegistrationResult(Registered, epoch, coordinator, Some(generation), Some(incarnation), false);
      StaysUnrepeated(o, d, fenced, req, commit, replaced, first[|undo|..]);
      RegistrationAppliedIs(o, d, fenced, state, req, commit, replaced, undo, first, undone);
    }

    /** Registration. The save refuses it exactly when another participant holds the boot; a
        failed save is undone without a trace exactly in the cases `UndoneExactly` names. */
    method RegisterParticipant(req: RegisterRequest, io: bool) returns (threw: bool, result: RegistrationResult)
      requires Valid()
      modifies this`state, this`participantIndex, this`bootIndex, this`fenceIndex, this`grantIndex, this`grantChildren, this`activeWorkers
      ensures threw ==> state.epoch == old(state).epoch
      ensures var spec := Register(o, old(Abs(state)), req, true);
              && (threw <==> spec.Threw? || (spec.mutated && (!io || !BootsUnique(spec.state))))
              && (spec.Done? ==>
                    (BootsUnique(spec.state) <==> !(spec.mutated && spec.result.outcome == Registered
                                                    && HeldElsewhere(old(Abs(state)), req.participant, req.boot))))
              && (!threw ==> Valid() && spec == Done(Abs(state), result, spec.mutated) && (!spec.mutated ==> state == old(state)))
              && (threw && spec.Done? ==>
                    && IndexesMatch()
                    && (spec.result.outcome == Registered ==>
                          && LeavesRegistration(old(state), state, req, spec.state)
                          && (state == old(state) <==> UndoneExactly(o, old(state), req, Replaced(o, old(Abs(state)), req)))))
    {
      hide Inv, DistinctParticipants, ToMap, BootsUnique, Register, RegisterThrough, ValidDurable, Canonicalized, SortedById, Rollback, ValidState, Reached, RegistrationApplied, UndoneExactly, Place, FindIncarnation, HeldElsewhere, ViableOptions, Ousted, Replaced, Unrepeated, LeavesRegistration;
      ValidStateFacts(o, state);
      ghost var d := state;
      var mutated, undo;
      ghost var replaced;
      ValidIsConsistent();
      FreshRegister(o, Abs(d), req, true);
      threw, result, mutated, undo, replaced := ApplyRegistration(req, true, [], state.fences);
      if threw {
        RunUndo(undo);
        return;
      }
      OustedIsReplaced(o, Abs(d), req);
      RegisterBootsIff(o, Abs(d), req, true);
      if !mutated {
        return;
      }
      assert undo[0..] == undo;
      MutatedReaches(o, d, state, req, result);
      ReachedSaves(o, Register(o, Abs(d), req, true), state);
      if result.outcome == Registered {
        RegistrationSettles(o, d, state, req, result, replaced, undo);
        RegistrationLeaves(o, d, state, req, replaced, undo);
      }
      var saved := Persist(undo, io);
      threw := !saved;
    }

    /** A batch: one save and one generation for all of it, every fence looked up through the index the
        batch began with. Where no element is misjudged, as under explicit fencing none can be, it is
        the abstract batch. A failed save is undone without a trace exactly when every participant the
        batch created sorts after all that were there and no fence record was forgotten. */
    method RegisterParticipants(reqs: seq<RegisterRequest>, io: bool) returns (threw: bool, results: seq<RegistrationResult>)
      requires Valid()
      modifies this`state, this`participantIndex, this`bootIndex, this`fenceIndex, this`grantIndex, this`grantChildren, this`activeWorkers
      ensures threw ==> state.epoch == old(state).epoch
      ensures var spec := RegisterBatchThrough(o, old(Abs(state)), reqs);
              && (threw <==> spec.Threw? || (spec.mutated && (!io || !Storable(spec.state))))
              && (!threw ==> && IndexesMatch() && DistinctParticipants(state.participants)
                             && spec == Done(Abs(state), results, spec.mutated) && (!spec.mutated ==> state == old(state)))
              && (threw && spec.Done? ==>
                    && IndexesMatch() && LeavesBatch(old(state), state, spec.state)
                    && (state == old(state) <==>
                        CreatesLast(old(state), spec.state) && Resize(spec.state.fences, |old(state).fences|) == old(state).fences))
      ensures BatchJudged(o, old(Abs(state)), reqs) ==>
                var spec := RegisterBatch(o, old(Abs(state)), reqs);
                && spec == RegisterBatchThrough(o, old(Abs(state)), reqs)
                && (threw <==> spec.Threw? || (spec.mutated && (!io || !BootsUnique(spec.state))))
                && (!threw ==> Valid())
    {
      hide Inv, DistinctParticipants, ToMap, BootsUnique, BatchJudged, RegisterThrough, RegisterBatch, RegisterEachThrough, ValidDurable, Canonicalized, SortedById, Rollback, ValidState, Reached, RegistrationApplied, ViableOptions, ParticipantIndex, BootIndex, FenceIndex, GrantIndex, GrantChildren, SumLive, Storable, Unrepeated, CreatesLast, Tracks, NewcomersLast, LeavesBatch, Resize, FenceApplied, Place;
      ValidStateFacts(o, state);
      ValidIsConsistent();
      ghost var d := state;
      if BatchJudged(o, Abs(d), reqs) {
        JudgedBatch(o, Abs(d), reqs);
      }
      var mutated, undo, k := false, [], 0;
      results := [];
      EmptyBatch(o, Abs(d), reqs);
      TracksNothing(d);
      while k < |reqs|
        invariant Tracks(d, state, undo)
        invariant 0 <= k <= |reqs| && Consistent() && Plain(undo) && state.epoch == d.epoch
        invariant RegisterEachThrough(o, Abs(d), d.fences, reqs[..k]) == Done(Abs(state), results, mutated)
        invariant !mutated ==>
                    && state == d && participantIndex == old(participantIndex) && bootIndex == old(bootIndex)
                    && activeWorkers == old(activeWorkers)
        modifies this`state, this`activeWorkers, this`participantIndex, this`bootIndex
      {
        var result, more;
        ghost var replaced;
        ghost var now, before := state, undo;
        BatchStep(o, Abs(d), reqs, k);
        threw, result, more, undo, replaced := ApplyRegistration(reqs[k], false, undo, d.fences);
        if threw {
          RunUndo(undo);
          return;
        }
        if more {
          if result.outcome == Registered {
            TracksRegistration(o, now, state, reqs[k], replaced, undo[|before|..]);
          } else {
            TracksFence(o, now, state, Place(now.participants, reqs[k].participant), replaced.value, Reincarnation, [], undo[|before|..]);
          }
          TracksOnwards(d, now, before, state, undo[|before|..]);
          assert before + undo[|before|..] == undo;
        }
        results := results + [result];
        mutated := mutated || more;
        k := k + 1;
      }
      assert reqs[..|reqs|] == reqs;
      if !mutated {
        return false, results;
      }
      ghost var each, log := state, undo;
      threw, undo := BumpGeneration(undo);
      if threw {
        RunUndo(undo);
        return;
      }
      CreatesLastIff(d, each, log);
      BatchRollback(o, d, each, log);
      BatchLeaves(d, each, log, state);
      SameCreations(d, Abs(each), state.generation);
      StorableIff(state);
      if BatchJudged(o, Abs(d), reqs) {
        CanonicalizedRefines(state);
        JudgedBatchSettles(o, d, reqs, Canonicalized(state));
      }
      var saved := Persist(undo, io);
      threw := !saved;
    }

    // ---- retirement -------------------------------------------------------

    /** Fences every live boot of the participant at position `i`. */
    method FenceAll(i: nat, note: Bytes) returns (threw: bool, count: nat, undo: seq<UndoAction>, ghost mutated: bool)
      requires Consistent() && i < |state.participants| && fenceIndex == FenceIndex(state.fences)
      modifies this`state, this`activeWorkers
      ensures var p := old(state).participants[i];
              var spec := FenceEachThrough(o, old(Abs(state)), old(state).fences, p.id, LiveBoots(p), note);
              if threw then spec.Threw? else Consistent() && spec == Done(Abs(state), count, mutated)
      ensures Plain(undo) && state.epoch == old(state).epoch
      ensures !threw ==>
                && SameTables(old(state).participants, state.participants) && TakesBack(old(state), state, i, undo)
                && forall k :: 0 <= k < |undo| ==> !PutsRecordsBack(undo[k])
    {
      hide DistinctParticipants, ToMap, ParticipantIndex, SumLive, FenceIndex, RecordFenceThrough, FenceApplied, LiveBoots, FenceEachThrough, BootLive, Unrepeated, TakesBack;
      ghost var d := state;
      var id := state.participants[i].id;
      var live := LiveBoots(state.participants[i]);
      count, undo, mutated := 0, [], false;
      NoFencesYet(o, Abs(d), id, live, note);
      NothingToTakeBack(d, i);
      for k := 0 to |live|
        invariant Consistent() && SameTables(d.participants, state.participants) && state.epoch == d.epoch
        invariant TakesBack(d, state, i, undo) && Plain(undo) && forall j :: 0 <= j < |undo| ==> !PutsRecordsBack(undo[j])
        invariant FenceEachThrough(o, Abs(d), d.fences, id, live[..k], note) == Done(Abs(state), count, mutated)
      {
        ghost var now, before := state, undo;
        FenceEachStep(o, Abs(d), id, live, k, note);
        Finds(id);
        PositionIs(state.participants, i);
        var fence, more;
        threw, fence, more, undo := RecordFence(id, live[k], AdministrativeRevoke, note, false, undo, d.fences);
        if threw {
          return;
        }
        if more {
          FenceAppliedTables(o, now, state, i, live[k], AdministrativeRevoke, note, undo[|before|..]);
          OneMoreTakenBack(o, d, now, state, i, live[k], AdministrativeRevoke, note, before, undo[|before|..]);
          assert undo == before + undo[|before|..];
        }
        if fence.outcome == FenceDone || fence.outcome == AlreadyFenced {
          count := count + 1;
        }
        mutated := mutated || more;
      }
      assert live[..|live|] == live;
      threw := false;
    }

    /** Retires a participant, every fence looked up through the index the retirement began with. When
        a live boot is misread on the way the save is refused; otherwise it is the abstract
        retirement. A failed save undoes the fences but not the memory of the attempt. */
    method RetireParticipant(req: RetireRequest, io: bool) returns (threw: bool, result: RetireResult)
      requires Valid()
      modifies this`state, this`participantIndex, this`bootIndex, this`fenceIndex, this`grantIndex, this`grantChildren, this`activeWorkers
      ensures threw ==> state.epoch == old(state).epoch
      ensures var spec := RetireThrough(o, old(Abs(state)), req);
              var misled := Misled(o, old(Abs(state)), req);
              && (!misled ==> spec == Retire(o, old(Abs(state)), req))
              && (threw <==> spec.Threw? || (spec.mutated && (!io || misled)))
              && (!threw ==> Valid() && spec == Done(Abs(state), result, spec.mutated) && (!spec.mutated ==> state == old(state)))
              && (threw && spec.Done? ==>
                    && IndexesMatch() && state != old(state) && Remembers(state, req.participant, req.attempt)
                    && Leaves(o, old(state), state, req.participant, req.attempt, spec.state))
    {
      hide Inv, DistinctParticipants, ToMap, BootsUnique, FindAttempt, ValidDurable, Canonicalized, SortedById, Rollback, ValidState, LiveBoots, FenceEachThrough, RetireAt, Remembers, ParticipantIndex, BootIndex, FenceIndex, GrantIndex, GrantChildren, SumLive, ViableOptions, RetireMisjudged, Retire, RetireThrough, Retires, Unrepeated, TakesBack, Leaves;
      ValidStateFacts(o, state);
      ValidIsConsistent();
      if !Misled(o, Abs(state), req) {
        JudgedRetirement(o, Abs(state), req);
      }
      var refusal, i := ScreenRetirement(req);
      if refusal.Some? {
        return false, refusal.value;
      }
      ghost var d := state;
      var count, undo;
      ghost var mutated;
      threw, count, undo, mutated := FenceAll(i, req.note);
      if threw {
        RetireThrows(o, Abs(d), req);
        RunUndo(undo);
        return true, RetireResult(RetireMalformed, 0, 0);
      }
      ghost var now := state;
      result := RetireResult(RetireDone, state.epoch, count);
      var record := AttemptRecord(req.attempt, RetireKind, o.digest(Request.Retiring(req)), 0, count % (U64_MAX + 1), 0, NIL);
      ghost var fences := undo;
      threw, undo := CloseParticipant(i, record, undo);
      if threw {
        RetireThrows(o, Abs(d), req);
        RunUndo(undo);
        return true, RetireResult(RetireMalformed, 0, 0);
      }
      RetireSettles(o, d, now, i, req, count, mutated, record, state);
      RetirementUndone(o, d, now, i, record, undo);
      RetirementLeaves(o, d, now, i, record, fences);
      var saved := Persist(undo, io);
      threw := !saved;
    }

    /** The checks that precede any fence of a retirement; otherwise where the participant is. */
    method ScreenRetirement(req: RetireRequest) returns (refusal: Option<RetireResult>, i: nat)
      requires Findable()
      ensures refusal.Some? ==> RetireThrough(o, Abs(state), req) == Done(Abs(state), refusal.value, false)
      ensures refusal.None? ==>
                && Retires(Abs(state), req) && i < |state.participants| && state.participants[i].id == req.participant
                && FindAttempt(state.participants[i].idempotency, req.attempt).None?
                && LiveBootsOf(Abs(state), req.participant) == LiveBoots(state.participants[i])
    {
      hide DistinctParticipants, ToMap, FindAttempt, LiveBoots, FenceEachThrough, ParticipantIndex;
      i := 0;
      if req.attempt == NIL || req.participant.text == [] {
        return Some(RetireResult(RetireMalformed, state.epoch, 0)), i;
      }
      if req.expectedEpoch != state.epoch {
        return Some(RetireResult(RetireStaleEpoch, state.epoch, 0)), i;
      }
      Finds(req.participant);
      var found := FindParticipant(req.participant);
      if found.None? {
        return Some(RetireResult(RetireUnknownParticipant, state.epoch, 0)), i;
      }
      i := found.value;
      var p := state.participants[i];
      var previous := ScanAttempts(p.idempotency, req.attempt);
      if previous.Some? {
        if previous.value.semantic != o.digest(Request.Retiring(req)) {
          return Some(RetireResult(RetireConflict, state.epoch, 0)), i;
        }
        return Some(RetireResult(RetireOutcomeOf(previous.value.outcome), state.epoch, previous.value.auxiliary)), i;
      }
      if p.retired {
        return Some(RetireResult(RetireOutcome.AlreadyRetired, state.epoch, 0)), i;
      }
      return None, i;
    }

    /** Closes the incarnation allocator: every sequence it could have issued is at or below the floor. */
    method CloseParticipant(i: nat, record: AttemptRecord, undo: seq<UndoAction>) returns (threw: bool, undone: seq<UndoAction>)
      requires i < |state.participants|
      requires forall k :: 0 <= k < |undo| ==> !PutsRecordsBack(undo[k])
      modifies this`state
      ensures threw <==> old(state).generation == U64_MAX
      ensures state.epoch == old(state).epoch && (Plain(undo) ==> Plain(undone))
      ensures !threw ==> state == RetireAt(o, old(state), i, record)
      ensures forall k :: 0 <= k < |undone| ==> !PutsRecordsBack(undone[k])
      ensures undone == undo + [UndoRetire(old(state).participants[i]), UndoGeneration(old(state).generation)]
    {
      hide Remember;
      var d, p := state, state.participants[i];
      undone := undo + [UndoRetire(p)];
      if p.nextIncarnation != 0 && p.nextIncarnation - 1 > p.incarnationFloor {
        p := p.(incarnationFloor := p.nextIncarnation - 1);
      }
      p := p.(retired := true, revalidationRequired := false);
      state := state.(participants := state.participants[i := p]);
      threw, undone := BumpGeneration(undone);
      if threw {
        return;
      }
      RememberAttempt(i, record);
      assert state.participants == d.participants[i := RetiredParticipantRecord(o, d.participants[i], record)];
    }

    // ---- currentness ------------------------------------------------------

    method EvaluateIncarnation(i: nat, boot: Id, claimed: U64) returns (e: Evaluation)
      requires Findable() && fenceIndex == FenceIndex(state.fences) && i < |state.participants|
      ensures e == Evaluate(Abs(state), state.participants[i], boot, claimed)
    {
      hide DistinctParticipants, ToMap, ParticipantIndex, FenceIndex, IndexedLookup, LookupFence, FindIncarnation, FirstLiveBoot;
      var p := state.participants[i];
      var current := ScanIncarnation(p, boot);
      if current.Some? {
        if claimed != 0 && claimed != current.value {
          return Evaluation(StaleWorkerBoot, IsFenced, current, None, None);
        }
        return Evaluation(Current, IsCurrent, current, None, None);
      }
      var fence := LookupFenceOf(i, boot);
      WholeIndexCovers(state.fences, boot);
      CoveringLookupAgrees(state, fenceIndex, i, boot);
      var incumbent := FirstLiveBoot(p);
      if fence.fenced {
        var incarnation, epoch := None, None;
        if fence.record.Some? {
          if fence.record.value.incarnation != 0 {
            incarnation := Some(fence.record.value.incarnation);
          }
          if fence.record.value.epoch != 0 {
            epoch := Some(fence.record.value.epoch);
          }
        }
        return Evaluation(StaleWorkerBoot, IsFenced, incarnation, incumbent, epoch);
      }
      if claimed != 0 && claimed <= p.incarnationFloor {
        return Evaluation(StaleWorkerBoot, IsFenced, None, None, None);
      }
      if !p.hasActiveBoot && p.extras == [] {
        if p.revalidationRequired {
          return Evaluation(RevalidationRequired, NeedsRevalidation, None, None, None);
        }
        return Evaluation(StaleWorkerBoot, IsFenced, None, None, None);
      }
      return Evaluation(StaleWorkerBoot, IsFenced, None, incumbent, None);
    }

    function FindGrant(id: Id): (r: Option<nat>)
      reads this`state, this`grantIndex
      ensures r.Some? ==> r.value < |state.grants|
    {
      if id in grantIndex && grantIndex[id] < |state.grants| then Some(grantIndex[id]) else None
    }

    method ValidateByGrant(g: Grant, req: ValidateRequest) returns (v: Validation)
      requires Findable() && fenceIndex == FenceIndex(state.fences)
      ensures v == ValidateGrant(Abs(state), req, g)
    {
      hide DistinctParticipants, ToMap, ParticipantIndex, FenceIndex, Evaluate;
      if g.epoch != state.epoch {
        return Verdictless(StaleEpoch, IsStaleEpoch).(replacedByEpoch := Some(state.epoch));
      }
      if g.revoked {
        return Verdictless(Revoked, IsRevoked);
      }
      if g.boot != req.token.boot {
        return Verdictless(StaleWorkerBoot, IsFenced).(supersededBy := Some(g.boot));
      }
      Finds(g.participant);
      var i := FindParticipant(g.participant);
      if i.None? {
        return Verdictless(UnknownParticipant, IsUnknown);
      }
      var owner := state.participants[i.value];
      var e := EvaluateIncarnation(i.value, req.token.boot, req.token.incarnation);
      if e.code != Current {
        return Validation(e.code, e.currentness, None, None, e.replacedByEpoch, e.supersededBy);
      }
      if req.scope !in g.scopes {
        return Validation(UnauthorizedScope, IsCurrent, Some(owner.registrationGeneration), e.incarnation, None, None);
      }
      if g.generation != owner.registrationGeneration && req.expectedGeneration.Some?
         && req.expectedGeneration.value != owner.registrationGeneration {
        return Validation(RevalidationRequired, NeedsRevalidation, Some(owner.registrationGeneration), e.incarnation, None, None);
      }
      return Validation(Current, IsCurrent, Some(owner.registrationGeneration), e.incarnation, None, None);
    }

    method ValidateByToken(req: ValidateRequest) returns (v: Validation)
      requires Findable() && fenceIndex == FenceIndex(state.fences)
      ensures v == Authority.ValidateToken(Abs(state), req)
    {
      hide DistinctParticipants, ToMap, ParticipantIndex, FenceIndex, Evaluate;
      if req.token.epoch != state.epoch {
        return Verdictless(StaleEpoch, IsStaleEpoch).(replacedByEpoch := Some(state.epoch));
      }
      Finds(req.token.participant);
      var i := FindParticipant(req.token.participant);
      if i.None? {
        return Verdictless(UnknownParticipant, IsUnknown);
      }
      var p := state.participants[i.value];
      if p.retired {
        return Verdictless(ValidationCode.Retired, IsRetired);
      }
      var e := EvaluateIncarnation(i.value, req.token.boot, req.token.incarnation);
      if e.code != Current {
        return Validation(e.code, e.currentness, Some(p.registrationGeneration), e.incarnation, e.replacedByEpoch, e.supersededBy);
      }
      if req.scope !in p.scopes {
        return Validation(UnauthorizedScope, IsCurrent, Some(p.registrationGeneration), e.incarnation, None, None);
      }
      if req.expectedGeneration.Some? && req.expectedGeneration.value != p.registrationGeneration {
        return Validation(RevalidationRequired, NeedsRevalidation, Some(p.registrationGeneration), e.incarnation, None, None);
      }
      return Validation(Current, IsCurrent, Some(p.registrationGeneration), e.incarnation, None, None);
    }

    /** The check made before every downstream mutation, through the indexes. */
    method ValidateAuthority(req: ValidateRequest) returns (v: Validation)
      requires Valid()
      ensures v == Authority.Validate(Abs(state), req)
    {
      hide ToMap, ValidateGrant, Authority.ValidateToken, Inv, DistinctParticipants, IndexOf, ParticipantIndex, FenceIndex, GrantIndex, ValidState;
      ValidStateFacts(o, state);
      if req.token.participant.text == [] || req.token.boot == NIL || req.token.incarnation == 0 {
        return Verdictless(ValidationCode.Malformed, IsUnknown);
      }
      if req.grant.Some? {
        GrantIndexFinds(state.grants, req.grant.value);
        var g := FindGrant(req.grant.value);
        if g.None? {
          return Verdictless(UnknownGrant, IsUnknown);
        }
        v := ValidateByGrant(state.grants[g.value], req);
      } else {
        v := ValidateByToken(req);
      }
    }

    // ---- grants -----------------------------------------------------------

    method Delegates(parent: Id, scopes: seq<Scope>) returns (r: bool)
      requires Findable() && fenceIndex == FenceIndex(state.fences) && grantIndex == GrantIndex(state.grants)
      ensures r <==> MayDelegate(Abs(state), parent, scopes)
    {
      hide DistinctParticipants, ToMap, ParticipantIndex, FenceIndex, GrantIndex, Evaluate, ScopesWithin, IndexOf;
      GrantIndexFinds(state.grants, parent);
      var j := FindGrant(parent);
      if j.None? {
        return false;
      }
      var g := state.grants[j.value];
      if g.revoked || g.epoch != state.epoch {
        return false;
      }
      Finds(g.participant);
      var delegator := FindParticipant(g.participant);
      if delegator.None? {
        return false;
      }
      var e := EvaluateIncarnation(delegator.value, g.boot, g.incarnation);
      return e.code == Current && ScopesWithin(scopes, g.scopes);
    }

    /** Grants authority; `id` is the identifier generated for it. A failed save undoes the grant
        but not the memory of the attempt. */
    method GrantAuthority(req: GrantRequest, id: Id, io: bool) returns (threw: bool, result: GrantResult)
      requires Valid() && FreshGrantId(Abs(state), id)
      modifies this`state, this`participantIndex, this`bootIndex, this`fenceIndex, this`grantIndex, this`grantChildren, this`activeWorkers
      ensures threw ==> state.epoch == old(state).epoch
      ensures var spec := Authority.GrantAuthority(o, old(Abs(state)), req, id);
              && (threw <==> spec.Threw? || (spec.mutated && !io))
              && (!threw ==> Valid() && spec == Done(Abs(state), result, spec.mutated) && (!spec.mutated ==> state == old(state)))
              && (threw && spec.Done? ==>
                    && IndexesMatch() && state != old(state) && Remembers(state, req.participant, req.attempt)
                    && Leaves(o, old(state), state, req.participant, req.attempt, spec.state))
    {
      hide Inv, DistinctParticipants, ToMap, BootsUnique, FindAttempt, ValidDurable, Canonicalized, SortedById, Rollback, ValidState, Reached, Evaluate, MayDelegate, ScopesWithin, NewGrant, GrantAt, AddGrant, FreshGrantId, Remembers, Leaves, ParticipantIndex, BootIndex, FenceIndex, GrantIndex, GrantChildren, SumLive;
      ValidStateFacts(o, state);
      if req.attempt == NIL || req.participant.text == [] || req.boot == NIL || req.incarnation == 0 || req.scopes == [] {
        return false, GrantRefused(GrantMalformed);
      }
      if |req.scopes| > o.limits.maxScopesPerGrant {
        return false, GrantRefused(GrantLimit);
      }
      if req.expectedEpoch != state.epoch {
        return false, GrantRefused(GrantStaleEpoch);
      }
      Finds(req.participant);
      var i := FindParticipant(req.participant);
      if i.None? {
        return false, GrantRefused(GrantUnknownParticipant);
      }
      var p := state.participants[i.value];
      var e := EvaluateIncarnation(i.value, req.boot, req.incarnation);
      if e.code != Current {
        return false, GrantRefused(GrantStaleBoot);
      }
      if !ScopesWithin(req.scopes, p.scopes) {
        return false, GrantRefused(GrantUnauthorized);
      }
      var previous := ScanAttempts(p.idempotency, req.attempt);
      if previous.Some? {
        if previous.value.semantic != o.digest(Granting(req)) {
          return false, GrantRefused(GrantConflict);
        }
        return false, GrantResult(GrantOutcomeOf(previous.value.outcome), state.epoch, Some(previous.value.auxiliaryId),
                                  Some(previous.value.auxiliary), true);
      }
      if req.parent.Some? {
        var delegated := Delegates(req.parent.value, req.scopes);
        if !delegated {
          return false, GrantRefused(DelegationRejected);
        }
      }
      if |state.grants| >= o.limits.maxGrants {
        return false, GrantRefused(GrantLimit);
      }
      ghost var d := state;
      var undo;
      threw, undo := AppendGrant(i.value, req, id);
      if threw {
        RunUndo(undo);
        return true, GrantRefused(GrantLimit);
      }
      result := GrantResult(Granted, state.epoch, Some(id), Some(state.generation), false);
      GrantSettles(o, d, i.value, req, id, undo);
      GrantLeaves(o, d, i.value, NewGrant(Abs(d), req, id), AttemptRecord(req.attempt, GrantKind, o.digest(Granting(req)), 0, d.generation + 1, 0, id));
      ReachedSaves(o, Authority.GrantAuthority(o, Abs(d), req, id), state);
      var saved := Persist(undo, io);
      threw := !saved;
    }

    function GrantRefused(outcome: GrantOutcome): GrantResult
      reads this`state
    {
      GrantResult(outcome, state.epoch, None, None, false)
    }

    method AppendGrant(i: nat, req: GrantRequest, id: Id) returns (threw: bool, undo: seq<UndoAction>)
      requires Findable() && i < |state.participants| && grantIndex == GrantIndex(state.grants)
      modifies this`state, this`grantIndex, this`grantChildren
      ensures (threw <==> old(state).generation == U64_MAX) && Plain(undo) && state.epoch == old(state).epoch
      ensures !threw ==>
                var record := AttemptRecord(req.attempt, GrantKind, o.digest(Granting(req)), 0, old(state).generation + 1, 0, id);
                && state == GrantAt(o, old(state), i, NewGrant(old(Abs(state)), req, id), record)
                && undo == GrantLog(old(state))
                && state.epoch == old(state).epoch && state.generation == old(state).generation + 1
    {
      hide DistinctParticipants, ToMap, ParticipantIndex, GrantIndex, IndexOf, RememberAt;
      var d := state;
      var delegator := None;
      if req.parent.Some? {
        GrantIndexFinds(state.grants, req.parent.value);
        var j := FindGrant(req.parent.value);
        if j.Some? {
          delegator := Some(state.grants[j.value].boot);
        }
      }
      var g := Grant(id, d.epoch, req.participant, req.boot, req.incarnation, req.scopes, 0, req.parent, delegator, false, 0, req.provenance);
      var index := |state.grants|;
      state := state.(grants := state.grants + [g]);
      undo := [UndoGrant];
      grantIndex := grantIndex[id := index];
      if g.parent.Some? {
        grantChildren := PushAt(grantChildren, g.parent.value, index);
      }
      threw, undo := BumpGeneration(undo);
      if threw {
        return;
      }
      g := g.(generation := state.generation);
      state := state.(grants := state.grants[index := g]);
      assert state.grants == d.grants + [g];
      var record := AttemptRecord(req.attempt, GrantKind, o.digest(Granting(req)), 0, g.generation, 0, id);
      RememberAttempt(i, record);
    }

    // ---- revocation -------------------------------------------------------

    /** Revokes a grant and everything delegated from it. */
    method RevokeAuthority(req: RevokeRequest, io: bool) returns (threw: bool, result: RevokeResult)
      requires Valid()
      modifies this`state, this`participantIndex, this`bootIndex, this`fenceIndex, this`grantIndex, this`grantChildren, this`activeWorkers
      ensures threw ==> state.epoch == old(state).epoch
      ensures var spec := Authority.RevokeAuthority(o, old(Abs(state)), req);
              && (threw <==> spec.Threw? || (spec.mutated && !io))
              && (!threw ==> Valid() && spec == Done(Abs(state), result, spec.mutated) && (!spec.mutated ==> state == old(state)))
              && (threw && spec.Done? ==>
                    && IndexesMatch()
                    && state == old(state).(control := Resize(spec.state.control, |old(state).control|),
                                            grants := RestoreSubtree(old(state).grants, IndexOf(old(state).grants, req.grant).value))
                    && (state == old(state) <==>
                        |old(state).control| < o.limits.maxIdempotencyRecords
                        && WhollyLive(old(state).grants, IndexOf(old(state).grants, req.grant).value)))
    {
      hide Inv, DistinctParticipants, ToMap, BootsUnique, FindAttempt, ValidDurable, Canonicalized, SortedById, Rollback, ValidState, Reached, NewlyRevoked, RevokeAt, RevokeTree, RevokeLog, IndexOf, WhollyLive, ParticipantIndex, BootIndex, FenceIndex, GrantIndex, GrantChildren, SumLive, ViableOptions;
      ValidStateFacts(o, state);
      if req.attempt == NIL || req.grant == NIL {
        return false, RevokeResult(RevokeMalformed, state.epoch, None, 0);
      }
      if req.expectedEpoch != state.epoch {
        return false, RevokeResult(RevokeStaleEpoch, state.epoch, None, 0);
      }
      var previous := ScanAttempts(state.control, req.attempt);
      if previous.Some? {
        if previous.value.semantic != o.digest(Revoking(req)) {
          return false, RevokeResult(RevokeConflict, state.epoch, None, 0);
        }
        return false, RevokeResult(RevokeOutcomeOf(previous.value.outcome), state.epoch, Some(previous.value.auxiliary),
                                   previous.value.auxiliaryHigh);
      }
      GrantIndexFinds(state.grants, req.grant);
      var t := FindGrant(req.grant);
      if t.None? {
        return false, RevokeResult(RevokeUnknownGrant, state.epoch, None, 0);
      }
      if state.grants[t.value].revoked {
        return false, RevokeResult(AlreadyRevoked, state.epoch, Some(state.grants[t.value].generation), 0);
      }
      ghost var d := state;
      var undo, derived;
      threw, undo, derived := RevokeFrom(t.value, req);
      if threw {
        RunUndo(undo);
        return true, RevokeResult(RevokeMalformed, 0, None, 0);
      }
      result := RevokeResult(RevokeDone, state.epoch, Some(state.generation), derived);
      ghost var record := AttemptRecord(req.attempt, RevokeKind, o.digest(Revoking(req)), 0, d.generation + 1, derived % (U64_MAX + 1), NIL);
      RevokeSettles(o, d, t.value, req, derived, record);
      GrantsUnmarked(o, d);
      RevocationResidue(o, d, t.value, record);
      ReachedSaves(o, Authority.RevokeAuthority(o, Abs(d), req), state);
      var saved := Persist(undo, io);
      threw := !saved;
    }

    method RevokeFrom(t: nat, req: RevokeRequest) returns (threw: bool, undo: seq<UndoAction>, derived: nat)
      requires Valid() && t < |state.grants| && !state.grants[t].revoked
      modifies this`state
      ensures (threw <==> old(state).generation == U64_MAX) && Undoable(undo) && KeepsEpoch(undo) && state.epoch == old(state).epoch
      ensures derived == |NewlyRevoked(old(state).grants, t)| - 1
      ensures !threw ==>
                var record := AttemptRecord(req.attempt, RevokeKind, o.digest(Revoking(req)), 0, old(state).generation + 1,
                                            derived % (U64_MAX + 1), NIL);
                && state == RevokeAt(o, old(state), t, record) && undo == RevokeLog(old(state), t)
                && state.epoch == old(state).epoch && state.generation == old(state).generation + 1
    {
      hide Inv, DistinctParticipants, ToMap, BootsUnique, SortedById, ParticipantIndex, BootIndex, FenceIndex, GrantIndex, GrantChildren, SumLive, NewlyRevoked, RevokeSubtree, IsForest, IndexesGrants, IndexesChildren, UniqueIds, Unmarked, Remember;
      var d := state;
      GrantsUnmarked(o, d);
      GrantIndexIndexes(d.grants);
      GrantChildrenIndexes(d.grants);
      undo := [UndoRevoke(d.grants[t].id, d.grants[t].generation, d.grants[t].revokedAtEpoch, |d.control|)];
      var grants, revoked := Cascade(d.grants, grantIndex, grantChildren, t, d.epoch);
      derived := revoked - 1;
      RevokedIndexed(d.grants, t, d.epoch, d.generation);
      state := state.(grants := grants);
      threw, undo := BumpGeneration(undo);
      if threw {
        return;
      }
      var record := AttemptRecord(req.attempt, RevokeKind, o.digest(Revoking(req)), 0, state.generation, derived % (U64_MAX + 1), NIL);
      state := state.(grants := state.grants[t := state.grants[t].(generation := state.generation)],
                      control := Remember(state.control, o.limits.maxIdempotencyRecords, record));
    }

    // ---- epochs -----------------------------------------------------------

    /** Moves to the next epoch; `invalidate` takes away all live authority. */
    method MutateEpoch(boot: Id, cause: TransitionCause, invalidate: bool, transition: Id) returns (threw: bool, undo: seq<UndoAction>)
      modifies this`state
      ensures threw <==> old(state).epoch == U64_MAX || old(state).generation == U64_MAX
      ensures NoRevokes(undo)
      ensures threw ==> Rollback(state, undo).epoch == old(state).epoch
      ensures !threw ==> state == AdvanceAt(o, old(state), boot, cause, invalidate, transition) && undo == EpochLog(old(state))
    {
      hide Remember;
      var d := state;
      undo := [];
      var next := Next(d.epoch);
      if next.None? {
        return true, undo;
      }
      undo := EpochLog(d);
      state := state.(epoch := next.value, coordinatorBoot := boot);
      var generation := Next(state.generation);
      if generation.None? {
        return true, undo;
      }
      state := state.(generation := generation.value);
      if invalidate {
        var ps := InvalidateParticipants(state.participants);
        state := state.(participants := ps);
      }
      var record := Transition(transition, d.epoch, state.epoch, cause, boot, state.generation, o.provenance);
      state := state.(transitions := Remember(state.transitions, o.limits.maxTransitionHistory, record));
      threw := false;
    }

    /** Explicit advancement. A failed save restores all but the memory of the attempt. */
    method AdvanceEpoch(req: AdvanceRequest, transition: Id, io: bool) returns (threw: bool, result: AdvanceResult)
      requires Valid() && FreshTransitionId(Abs(state), transition)
      modifies this`state, this`participantIndex, this`bootIndex, this`fenceIndex, this`grantIndex, this`grantChildren, this`activeWorkers
      ensures threw ==> state.epoch == old(state).epoch
      ensures var spec := Authority.AdvanceEpoch(o, old(Abs(state)), req, transition);
              && (threw <==> spec.Threw? || (spec.mutated && !io))
              && (!threw ==> Valid() && spec == Done(Abs(state), result, spec.mutated) && (!spec.mutated ==> state == old(state)))
              && (threw && spec.Done? ==>
                    && IndexesMatch() && state != old(state) && FindAttempt(state.control, req.attempt).Some?
                    && state == old(state).(control := spec.state.control,
                                            transitions := Resize(spec.state.transitions, |old(state).transitions|)))
    {
      hide Inv, DistinctParticipants, ToMap, BootsUnique, FindAttempt, ValidDurable, Canonicalized, SortedById, Rollback, ValidState, Reached, AdvanceAt, Authority.MutateEpoch, Remember, FreshTransitionId, ParticipantIndex, BootIndex, FenceIndex, GrantIndex, GrantChildren, SumLive, ViableOptions;
      ValidStateFacts(o, state);
      if req.attempt == NIL {
        return false, AdvanceResult(AdvanceMalformed, state.epoch, state.coordinatorBoot, None, false);
      }
      var digest := o.digest(Advancing(req));
      var previous := ScanAttempts(state.control, req.attempt);
      if previous.Some? {
        if previous.value.semantic != digest {
          return false, AdvanceResult(AdvanceConflict, state.epoch, state.coordinatorBoot, None, false);
        }
        var replayed := None;
        if previous.value.auxiliaryHigh != 0 && previous.value.auxiliary == state.epoch && state.transitions != [] {
          replayed := Some(state.transitions[|state.transitions| - 1].id);
        }
        return false, AdvanceResult(AdvanceOutcomeOf(previous.value.outcome), previous.value.auxiliary, state.coordinatorBoot, replayed, true);
      }
      if req.expectedEpoch != state.epoch {
        return false, AdvanceResult(AdvanceStaleEpoch, state.epoch, state.coordinatorBoot, None, false);
      }
      if state.epoch == U64_MAX {
        return false, AdvanceResult(EpochExhausted, state.epoch, state.coordinatorBoot, None, false);
      }
      ghost var d := state;
      var undo;
      threw, undo := MutateEpoch(state.coordinatorBoot, req.cause, true, transition);
      if threw {
        RunUndo(undo);
        return true, AdvanceResult(AdvanceMalformed, 0, NIL, None, false);
      }
      AdvancedEpoch(o, d, req.cause, transition);
      var record := AttemptRecord(req.attempt, AdvanceKind, digest, 0, state.epoch, 1, NIL);
      state := state.(control := Remember(state.control, o.limits.maxIdempotencyRecords, record));
      AdvanceSettles(o, d, req, transition, record);
      AdvanceResidue(o, d, req.cause, transition, record);
      ReachedSaves(o, Authority.AdvanceEpoch(o, Abs(d), req, transition), state);
      result := AdvanceResult(Advanced, state.epoch, state.coordinatorBoot, Some(transition), false);
      var saved := Persist(undo, io);
      threw := !saved;
    }

    // ---- sessions ---------------------------------------------------------

    /** Sessions and bound boots name each other: one session per worker incarnation. */
    ghost predicate Paired()
      reads this`sessions, this`bootSessions
    {
      Pairs(sessions, bootSessions)
    }

    /** The binding names a live incarnation of a participant of the current epoch. */
    ghost predicate Bindable(b: SessionBinding)
      reads this`state
      requires DistinctParticipants(state.participants)
    {
      && b.epoch == state.epoch && b.participant in Abs(state).participants
      && var p := Abs(state).participants[b.participant];
      && !p.retired && FindIncarnation(p, b.boot) == Some(b.incarnation)
    }

    /** Binds a session. An identifier already bound would be overwritten, which is when sessions
        and boots stop pairing. */
    method BindSession(b: SessionBinding) returns (threw: bool, ok: bool)
      requires Valid()
      modifies this`sessions, this`bootSessions
      ensures ok <==> Bindable(b) && b.boot !in old(bootSessions) && |old(sessions)| < o.limits.maxSessions
      ensures threw <==> Bindable(b) && b.boot !in old(bootSessions) && |old(sessions)| >= o.limits.maxSessions
      ensures sessions == if ok then old(sessions)[b.id := b] else old(sessions)
      ensures bootSessions == if ok then old(bootSessions)[b.boot := b.id] else old(bootSessions)
      ensures old(Paired()) ==> (Paired() <==> !ok || b.id !in old(sessions))
    {
      hide Inv, BootsUnique, ToMap, DistinctParticipants, FindIncarnation, Pairs;
      if b.epoch != state.epoch {
        return false, false;
      }
      Finds(b.participant);
      var i := FindParticipant(b.participant);
      if i.None? || state.participants[i.value].retired {
        return false, false;
      }
      var current := ScanIncarnation(state.participants[i.value], b.boot);
      if current.None? || current.value != b.incarnation {
        return false, false;
      }
      if b.boot in bootSessions {
        return false, false;
      }
      if |sessions| >= o.limits.maxSessions {
        return true, false;
      }
      sessions := sessions[b.id := b];
      bootSessions := bootSessions[b.boot := b.id];
      if old(Paired()) {
        BindingPairs(old(sessions), old(bootSessions), b);
      }
      return false, true;
    }

    method EraseSession(session: Id)
      requires session in sessions
      modifies this`sessions, this`bootSessions
      ensures sessions == old(sessions) - {session}
      ensures bootSessions == old(bootSessions) - {old(sessions)[session].boot}
      ensures old(Paired()) ==> Paired()
    {
      bootSessions := bootSessions - {sessions[session].boot};
      sessions := sessions - {session};
    }

    /** Loss of a session: the incarnation bound to it, if it is still live, is fenced. */
    method CloseSession(session: Id, reason: ClosureReason, io: bool) returns (threw: bool, result: FenceResult)
      requires Valid()
      modifies this`state, this`participantIndex, this`bootIndex, this`fenceIndex, this`grantIndex, this`grantChildren, this`activeWorkers,
               this`sessions, this`bootSessions
      ensures threw ==> state.epoch == old(state).epoch
      ensures sessions == old(sessions) - {session} && (old(Paired()) ==> Paired())
      ensures session !in old(sessions) ==>
                !threw && state == old(state) && Valid() && result == FenceResult(NoFenceRequired, state.epoch, None, None)
      ensures session in old(sessions) ==>
                var b := old(sessions)[session];
                var spec := LoseSession(o, old(Abs(state)), b.participant, b.boot, reason);
                && (threw <==> spec.Threw? || (spec.mutated && !io))
                && (!threw ==> Valid() && spec == Done(Abs(state), result, spec.mutated) && (!spec.mutated ==> state == old(state)))
                && (threw && spec.Done? ==>
                      && IndexesMatch() && state == old(state).(fences := Resize(spec.state.fences, |old(state).fences|))
                      && (state == old(state) <==> |old(state).fences| < o.limits.maxRecentFences))
    {
      hide Inv, ToMap, LoseSession, ValidState, DistinctParticipants;
      ValidStateFacts(o, state);
      if session !in sessions {
        return false, FenceResult(NoFenceRequired, state.epoch, None, None);
      }
      var b := sessions[session];
      EraseSession(session);
      threw, result := LoseIncarnation(b, reason, io);
    }

    /** Fences what a closed session was bound to. */
    method LoseIncarnation(b: SessionBinding, reason: ClosureReason, io: bool) returns (threw: bool, result: FenceResult)
      requires Valid()
      modifies this`state, this`participantIndex, this`bootIndex, this`fenceIndex, this`grantIndex, this`grantChildren, this`activeWorkers
      ensures threw ==> state.epoch == old(state).epoch
      ensures var spec := LoseSession(o, old(Abs(state)), b.participant, b.boot, reason);
              && (threw <==> spec.Threw? || (spec.mutated && !io))
              && (!threw ==> Valid() && spec == Done(Abs(state), result, spec.mutated) && (!spec.mutated ==> state == old(state)))
              && (threw && spec.Done? ==>
                    && IndexesMatch() && state == old(state).(fences := Resize(spec.state.fences, |old(state).fences|))
                    && (state == old(state) <==> |old(state).fences| < o.limits.maxRecentFences))
    {
      hide Inv, DistinctParticipants, ToMap, BootsUnique, RecordFenceGiven, LookupThrough, LookupFence, ValidDurable, Canonicalized, SortedById, Rollback, ValidState, Reached, FenceApplied, FindIncarnation, Unrepeated, Resize;
      ValidStateFacts(o, state);
      Finds(b.participant);
      var i := FindParticipant(b.participant);
      if !o.fenceOnSessionLoss || i.None? {
        return false, FenceResult(NoFenceRequired, state.epoch, None, None);
      }
      var current := ScanIncarnation(state.participants[i.value], b.boot);
      if current.None? {
        return false, FenceResult(NoFenceRequired, state.epoch, None, None);
      }
      FreshThrough(Abs(state), b.participant, b.boot);
      ValidIsConsistent();
      ghost var d := state;
      var mutated, undo;
      threw, result, mutated, undo := RecordFence(b.participant, b.boot, FenceReasonFor(reason), [], false, [], state.fences);
      if threw {
        RunUndo(undo);
        return;
      }
      if !mutated {
        return;
      }
      assert undo[0..] == undo;
      LostSessionSettles(o, d, state, i.value, b.boot, reason, result, undo);
      LostSessionResidue(o, d, state, i.value, b.boot, FenceReasonFor(reason), undo);
      ReachedSaves(o, LoseSession(o, Abs(d), b.participant, b.boot, reason), state);
      var saved := Persist(undo, io);
      threw := !saved;
    }
  }
}
