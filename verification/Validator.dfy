/** The executable check every durable state passes before it is written and after it is read,
    and its relation to the engine invariant. */
module Validator {
  import opened Basics
  import opened Model
  import opened Forest
  import opened Authority
  import opened Invariant
  import opened Canonical
  import opened Runs
  import Preservation

  // ---- what the check accepts --------------------------------------------

  predicate Distinct<T(==)>(xs: seq<T>) {
    forall i, j :: 0 <= i < j < |xs| ==> xs[i] != xs[j]
  }

  /** The boots of every live incarnation, participant by participant. */
  function AllBoots(ps: seq<Participant>): seq<Id> {
    if ps == [] then [] else AllBoots(ps[..|ps| - 1]) + LiveBoots(ps[|ps| - 1])
  }

  function Attempts(table: seq<AttemptRecord>): (r: seq<Id>)
    ensures |r| == |table|
  {
    seq(|table|, i requires 0 <= i < |table| => table[i].attempt)
  }

  predicate ValidTable(table: seq<AttemptRecord>) {
    && |table| <= MAX_RECORDS
    && NIL !in Attempts(table) && Distinct(Attempts(table))
  }

  predicate ValidExtra(p: Participant, e: ActiveIncarnation) {
    e.boot != NIL && e.boot != p.activeBoot && e.sequence < p.nextIncarnation
  }

  predicate ValidParticipant(d: DurableState, p: Participant) {
    && p.id.text != []
    && p.registrationGeneration <= d.registrationFloor && p.fenceGeneration <= d.fenceFloor
    && (p.hasActiveBoot ==> p.activeBoot != NIL && p.activeIncarnation < p.nextIncarnation && !p.retired)
    && p.incarnationFloor < p.nextIncarnation
    && LiveCount(p) <= MAX_RECORDS
    && (forall i :: 0 <= i < |p.extras| ==> ValidExtra(p, p.extras[i]))
    && |p.fencedBoots| <= MAX_RECORDS && NIL !in p.fencedBoots && Distinct(p.fencedBoots)
    && (forall i :: 0 <= i < |p.fencedBoots| ==> !BootLive(p, p.fencedBoots[i]))
    && ValidTable(p.idempotency)
  }

  predicate ValidFence(d: DurableState, f: FenceRecord) {
    f.boot != NIL && f.generation <= d.fenceFloor && f.epoch <= d.epoch
  }

  function FencePairs(fences: seq<FenceRecord>): (r: seq<(ParticipantId, Id)>)
    ensures |r| == |fences|
  {
    seq(|fences|, i requires 0 <= i < |fences| => (fences[i].participant, fences[i].boot))
  }

  predicate ValidGrant(d: DurableState, g: Grant) {
    && g.id != NIL && g.epoch <= d.epoch
    && 0 < |g.scopes| <= MAX_SCOPES
    && (g.revoked ==> g.revokedAtEpoch <= d.epoch)
    && (g.boot == NIL ==> g.revoked)
  }

  function GrantIds(grants: seq<Grant>): (r: seq<Id>)
    ensures |r| == |grants|
  {
    seq(|grants|, i requires 0 <= i < |grants| => grants[i].id)
  }

  predicate ValidParent(d: DurableState, g: Grant) {
    g.parent.Some? ==> g.parent.value in GrantIds(d.grants) && g.parent.value != g.id
  }

  function TransitionIds(ts: seq<Transition>): (r: seq<Id>)
    ensures |r| == |ts|
  {
    seq(|ts|, i requires 0 <= i < |ts| => ts[i].id)
  }

  function ParticipantIds(ps: seq<Participant>): (r: seq<ParticipantId>)
    ensures |r| == |ps|
  {
    seq(|ps|, i requires 0 <= i < |ps| => ps[i].id)
  }

  predicate ValidTransition(d: DurableState, t: Transition) {
    t.fromEpoch < t.toEpoch <= d.epoch
  }

  predicate Unestablished(d: DurableState) {
    && d.participants == [] && d.grants == [] && d.fences == [] && d.transitions == []
    && d.coordinatorBoot == NIL && d.generation == 0 && d.registrationFloor == 0 && d.fenceFloor == 0
  }

  predicate WithinCeilings(d: DurableState) {
    && |d.participants| <= MAX_RECORDS && |d.fences| <= MAX_RECORDS
    && |d.grants| <= MAX_RECORDS && |d.transitions| <= MAX_RECORDS
  }

  predicate ValidParticipants(d: DurableState) {
    && Distinct(ParticipantIds(d.participants))
    && (forall i :: 0 <= i < |d.participants| ==> ValidParticipant(d, d.participants[i]))
    && Distinct(AllBoots(d.participants))
  }

  predicate ValidFences(d: DurableState) {
    && (forall i :: 0 <= i < |d.fences| ==> ValidFence(d, d.fences[i]))
    && Distinct(FencePairs(d.fences))
  }

  predicate ValidGrants(d: DurableState) {
    && (forall i :: 0 <= i < |d.grants| ==> ValidGrant(d, d.grants[i]) && ValidParent(d, d.grants[i]))
    && Distinct(GrantIds(d.grants))
  }

  predicate ValidTransitions(d: DurableState) {
    && (forall i :: 0 <= i < |d.transitions| ==> ValidTransition(d, d.transitions[i]))
    && |d.transitions| <= d.generation
    && NIL !in TransitionIds(d.transitions) && Distinct(TransitionIds(d.transitions))
  }

  predicate ValidControl(d: DurableState) {
    ValidTable(d.control) && forall i :: 0 <= i < |d.control| ==> IsControl(d.control[i])
  }

  /** A pristine store carries no authority; any other satisfies every structural rule. */
  predicate ValidDurable(d: DurableState) {
    && WithinCeilings(d)
    && (if d.epoch == 0 then Unestablished(d)
        else ValidTransitions(d) && ValidParticipants(d) && ValidFences(d) && ValidGrants(d) && ValidControl(d))
  }

  // ---- the check itself --------------------------------------------------

  method InsertsAll(xs: seq<Id>) returns (ok: bool)
    ensures ok <==> NIL !in xs && Distinct(xs)
  {
    var seen: set<Id> := {};
    for i := 0 to |xs|
      invariant seen == set k | 0 <= k < i :: xs[k]
      invariant NIL !in seen && Distinct(xs[..i])
    {
      if xs[i] == NIL || xs[i] in seen {
        assert xs[i] in seen ==> exists k :: 0 <= k < i && xs[k] == xs[i];
        return false;
      }
      assert xs[..i + 1] == xs[..i] + [xs[i]];
      seen := seen + {xs[i]};
    }
    assert xs[..|xs|] == xs;
    return true;
  }

  method ChecksTable(table: seq<AttemptRecord>) returns (ok: bool)
    ensures ok <==> ValidTable(table)
  {
    if |table| > MAX_RECORDS {
      return false;
    }
    ok := InsertsAll(Attempts(table));
  }

  method ChecksExtras(p: Participant) returns (ok: bool)
    ensures ok <==> (forall i :: 0 <= i < |p.extras| ==> ValidExtra(p, p.extras[i]))
  {
    for i := 0 to |p.extras|
      invariant forall k :: 0 <= k < i ==> ValidExtra(p, p.extras[k])
    {
      if p.extras[i].boot == NIL || p.extras[i].boot == p.activeBoot || p.nextIncarnation <= p.extras[i].sequence {
        assert !ValidExtra(p, p.extras[i]);
        return false;
      }
    }
    return true;
  }

  method ChecksRing(p: Participant) returns (ok: bool)
    ensures ok <==> (forall i :: 0 <= i < |p.fencedBoots| ==> !BootLive(p, p.fencedBoots[i]))
  {
    for i := 0 to |p.fencedBoots|
      invariant forall k :: 0 <= k < i ==> !BootLive(p, p.fencedBoots[k])
    {
      if p.hasActiveBoot && p.fencedBoots[i] == p.activeBoot {
        assert BootLive(p, p.fencedBoots[i]);
        return false;
      }
      for j := 0 to |p.extras|
        invariant forall k :: 0 <= k < j ==> p.extras[k].boot != p.fencedBoots[i]
      {
        if p.fencedBoots[i] == p.extras[j].boot {
          assert BootLive(p, p.fencedBoots[i]);
          return false;
        }
      }
    }
    return true;
  }

  method ChecksParticipant(d: DurableState, p: Participant) returns (ok: bool)
    ensures ok <==> ValidParticipant(d, p)
    ensures ok ==> p.registrationGeneration <= d.registrationFloor && p.fenceGeneration <= d.fenceFloor
  {
    if p.id.text == [] || p.registrationGeneration > d.registrationFloor || p.fenceGeneration > d.fenceFloor {
      return false;
    }
    if p.hasActiveBoot && (p.activeBoot == NIL || p.activeIncarnation >= p.nextIncarnation || p.retired) {
      return false;
    }
    if p.nextIncarnation <= p.incarnationFloor || LiveCount(p) > MAX_RECORDS || |p.fencedBoots| > MAX_RECORDS {
      return false;
    }
    var extras := ChecksExtras(p);
    var ring := ChecksRing(p);
    var fenced := InsertsAll(p.fencedBoots);
    var table := ChecksTable(p.idempotency);
    return extras && ring && fenced && table;
  }

  function AsSet<T(==)>(xs: seq<T>): set<T> {
    set x | x in xs
  }

  /** Claims each boot for its participant; fails as soon as one is already claimed. */
  method ClaimsBoots(claimed: set<Id>, boots: seq<Id>) returns (ok: bool, claims: set<Id>)
    ensures ok <==> Distinct(boots) && forall i :: 0 <= i < |boots| ==> boots[i] !in claimed
    ensures ok ==> claims == claimed + AsSet(boots)
  {
    claims := claimed;
    for i := 0 to |boots|
      invariant claims == claimed + AsSet(boots[..i])
      invariant forall k :: 0 <= k < i ==> boots[k] !in claimed
      invariant Distinct(boots[..i])
    {
      if boots[i] in claims {
        assert boots[i] !in claimed ==> exists k :: 0 <= k < i && boots[k] == boots[i];
        return false, claims;
      }
      assert boots[..i + 1] == boots[..i] + [boots[i]];
      claims := claims + {boots[i]};
    }
    assert boots[..|boots|] == boots;
    return true, claims;
  }

  lemma DistinctConcat<T>(xs: seq<T>, ys: seq<T>)
    ensures Distinct(xs + ys) <==> Distinct(xs) && Distinct(ys) && forall i, j :: 0 <= i < |xs| && 0 <= j < |ys| ==> xs[i] != ys[j]
  {
    var zs := xs + ys;
    assert forall i :: 0 <= i < |xs| ==> zs[i] == xs[i];
    assert forall j :: 0 <= j < |ys| ==> zs[|xs| + j] == ys[j];
    if Distinct(zs) {
      forall i, j | 0 <= i < |xs| && 0 <= j < |ys|
        ensures xs[i] != ys[j]
      {
        assert zs[i] != zs[|xs| + j];
      }
    }
  }

  lemma {:induction false} PrefixDistinct(ps: seq<Participant>, i: nat)
    requires i <= |ps| && Distinct(AllBoots(ps))
    ensures Distinct(AllBoots(ps[..i]))
    decreases |ps|
  {
    if i < |ps| {
      DistinctConcat(AllBoots(ps[..|ps| - 1]), LiveBoots(ps[|ps| - 1]));
      PrefixDistinct(ps[..|ps| - 1], i);
      assert ps[..|ps| - 1][..i] == ps[..i];
    } else {
      assert ps[..i] == ps;
    }
  }

  method ChecksParticipants(d: DurableState) returns (ok: bool)
    ensures ok <==> ValidParticipants(d)
  {
    hide ValidParticipant, LiveBoots, AllBoots, ParticipantIds, AsSet;
    ClaimedSoFar(d.participants, 0);
    var ps := d.participants;
    var ids: set<ParticipantId> := {};
    var owners: set<Id> := {};
    var maxRegistration: U64, maxFence: U64 := 0, 0;
    for i := 0 to |ps|
      invariant ids == set k | 0 <= k < i :: ps[k].id
      invariant forall j, k :: 0 <= j < k < i ==> ps[j].id != ps[k].id
      invariant forall k :: 0 <= k < i ==> ValidParticipant(d, ps[k])
      invariant Distinct(AllBoots(ps[..i]))
      invariant owners == AsSet(AllBoots(ps[..i]))
      invariant maxRegistration <= d.registrationFloor && maxFence <= d.fenceFloor
    {
      if ps[i].id in ids {
        DuplicateId(ps, i);
        return false;
      }
      var valid := ChecksParticipant(d, ps[i]);
      if !valid {
        return false;
      }
      var unclaimed, claims := ClaimsBoots(owners, LiveBoots(ps[i]));
      ClaimedSoFar(ps, i);
      if !unclaimed {
        NotDistinctLater(d, i);
        return false;
      }
      ids := ids + {ps[i].id};
      owners := claims;
      maxRegistration := Max(maxRegistration, ps[i].registrationGeneration);
      maxFence := Max(maxFence, ps[i].fenceGeneration);
    }
    assert ps[..|ps|] == ps;
    IdsDistinct(ps);
    if maxRegistration > d.registrationFloor || maxFence > d.fenceFloor {
      assert false;
    }
    return true;
  }

  /** How claiming the next participant's boots extends the claims made so far. */
  lemma ClaimedSoFar(ps: seq<Participant>, i: nat)
    requires i <= |ps|
    ensures AllBoots(ps[..0]) == [] && AsSet(AllBoots(ps[..0])) == {}
    ensures i < |ps| ==>
              var before, boots, after := AllBoots(ps[..i]), LiveBoots(ps[i]), AllBoots(ps[..i + 1]);
              && AsSet(after) == AsSet(before) + AsSet(boots)
              && (Distinct(after) <==>
                    Distinct(before) && Distinct(boots) && forall k :: 0 <= k < |boots| ==> boots[k] !in AsSet(before))
  {
    if i < |ps| {
      var before, boots := AllBoots(ps[..i]), LiveBoots(ps[i]);
      assert ps[..i + 1][..i] == ps[..i] && ps[..i + 1][i] == ps[i];
      assert AllBoots(ps[..i + 1]) == before + boots;
      DistinctConcat(before, boots);
    }
  }

  lemma IdsDistinct(ps: seq<Participant>)
    requires forall j, k :: 0 <= j < k < |ps| ==> ps[j].id != ps[k].id
    ensures Distinct(ParticipantIds(ps))
  {
  }

  lemma DuplicateId(ps: seq<Participant>, i: nat)
    requires i < |ps| && exists k :: 0 <= k < i && ps[k].id == ps[i].id
    ensures !Distinct(ParticipantIds(ps))
  {
    var k :| 0 <= k < i && ps[k].id == ps[i].id;
    assert ParticipantIds(ps)[k] == ParticipantIds(ps)[i];
  }

  lemma NotDistinctLater(d: DurableState, i: nat)
    requires i < |d.participants| && !Distinct(AllBoots(d.participants[..i + 1]))
    ensures !ValidParticipants(d)
  {
    if Distinct(AllBoots(d.participants)) {
      PrefixDistinct(d.participants, i + 1);
    }
  }

  method ChecksFences(d: DurableState) returns (ok: bool)
    ensures ok <==> ValidFences(d)
  {
    var pairs := FencePairs(d.fences);
    var seen: set<(ParticipantId, Id)> := {};
    for i := 0 to |d.fences|
      invariant forall k :: 0 <= k < i ==> ValidFence(d, d.fences[k])
      invariant seen == set k | 0 <= k < i :: pairs[k]
      invariant forall j, k :: 0 <= j < k < i ==> pairs[j] != pairs[k]
    {
      var f := d.fences[i];
      if f.boot == NIL || f.generation > d.fenceFloor || f.epoch > d.epoch {
        assert !ValidFence(d, d.fences[i]);
        return false;
      }
      if (f.participant, f.boot) in seen {
        assert exists k :: 0 <= k < i && pairs[k] == pairs[i];
        return false;
      }
      seen := seen + {pairs[i]};
    }
    return true;
  }

  method ChecksGrants(d: DurableState) returns (ok: bool)
    ensures ok <==> ValidGrants(d)
  {
    var ids := GrantIds(d.grants);
    var seen: set<Id> := {};
    for i := 0 to |d.grants|
      invariant forall k :: 0 <= k < i ==> ValidGrant(d, d.grants[k])
      invariant seen == set k | 0 <= k < i :: ids[k]
      invariant forall j, k :: 0 <= j < k < i ==> ids[j] != ids[k]
    {
      var g := d.grants[i];
      if g.id == NIL || g.epoch > d.epoch || g.scopes == [] || |g.scopes| > MAX_SCOPES
         || (g.revoked && g.revokedAtEpoch > d.epoch) || (g.boot == NIL && !g.revoked) {
        assert !ValidGrant(d, d.grants[i]);
        return false;
      }
      if g.id in seen {
        assert exists k :: 0 <= k < i && ids[k] == ids[i];
        return false;
      }
      seen := seen + {ids[i]};
    }
    for i := 0 to |d.grants|
      invariant forall k :: 0 <= k < i ==> ValidParent(d, d.grants[k])
    {
      var g := d.grants[i];
      if g.parent.Some? && (g.parent.value !in seen || g.parent.value == g.id) {
        assert !ValidParent(d, d.grants[i]);
        return false;
      }
    }
    return true;
  }

  method ChecksTransitions(d: DurableState) returns (ok: bool)
    ensures ok <==> ValidTransitions(d)
  {
    for i := 0 to |d.transitions|
      invariant forall k :: 0 <= k < i ==> ValidTransition(d, d.transitions[k])
    {
      if d.transitions[i].toEpoch > d.epoch || d.transitions[i].toEpoch <= d.transitions[i].fromEpoch {
        assert !ValidTransition(d, d.transitions[i]);
        return false;
      }
    }
    if d.generation < |d.transitions| {
      return false;
    }
    ok := InsertsAll(TransitionIds(d.transitions));
  }

  method ChecksControl(d: DurableState) returns (ok: bool)
    ensures ok <==> ValidControl(d)
  {
    ok := ChecksTable(d.control);
    if ok {
      for i := 0 to |d.control|
        invariant forall k :: 0 <= k < i ==> IsControl(d.control[k])
      {
        if d.control[i].operation != AdvanceKind && d.control[i].operation != RevokeKind {
          return false;
        }
      }
    }
  }

  /** validate_durable_state: accepts exactly the valid states. */
  method CheckDurable(d: DurableState) returns (ok: bool)
    ensures ok <==> ValidDurable(d)
  {
    hide ValidTransitions, ValidParticipants, ValidFences, ValidGrants, ValidControl;
    if !WithinCeilings(d) {
      return false;
    }
    if d.epoch == 0 {
      return Unestablished(d);
    }
    ok := ChecksTransitions(d);
    if ok {
      ok := ChecksParticipants(d);
    }
    if ok {
      ok := ChecksFences(d);
    }
    if ok {
      ok := ChecksGrants(d);
    }
    if ok {
      ok := ChecksControl(d);
    }
  }

  // ---- completeness ------------------------------------------------------

  ghost predicate NoSharedBoot(ps: seq<Participant>) {
    forall i, j, b :: 0 <= i < j < |ps| && b in LiveBoots(ps[i]) ==> b !in LiveBoots(ps[j])
  }

  lemma {:induction false} InAllBoots(ps: seq<Participant>, b: Id)
    ensures b in AllBoots(ps) <==> exists i :: 0 <= i < |ps| && b in LiveBoots(ps[i])
  {
    if ps != [] {
      InAllBoots(ps[..|ps| - 1], b);
      assert forall i :: 0 <= i < |ps| - 1 ==> ps[..|ps| - 1][i] == ps[i];
    }
  }

  lemma {:induction false} BootsDistinctIff(ps: seq<Participant>)
    requires forall i :: 0 <= i < |ps| ==> Distinct(LiveBoots(ps[i]))
    ensures Distinct(AllBoots(ps)) <==> NoSharedBoot(ps)
  {
    hide LiveBoots;
    if ps != [] {
      var n := |ps| - 1;
      var init, boots := ps[..n], LiveBoots(ps[n]);
      assert forall i :: 0 <= i < n ==> init[i] == ps[i];
      BootsDistinctIff(init);
      DistinctConcat(AllBoots(init), boots);
      if NoSharedBoot(ps) {
        forall i, j | 0 <= i < |AllBoots(init)| && 0 <= j < |boots|
          ensures AllBoots(init)[i] != boots[j]
        {
          InAllBoots(init, AllBoots(init)[i]);
        }
      }
      if Distinct(AllBoots(ps)) {
        forall i, j, b | 0 <= i < j < |ps| && b in LiveBoots(ps[i])
          ensures b !in LiveBoots(ps[j])
        {
          if j == n {
            assert b in LiveBoots(init[i]);
            InAllBoots(init, b);
          } else {
            assert b in LiveBoots(init[i]) && LiveBoots(init[j]) == LiveBoots(ps[j]);
          }
        }
      }
    }
  }

  lemma SharedBootIff(o: Options, d: DurableState)
    requires DistinctParticipants(d.participants) && ParticipantsOk(o, Abs(d))
    ensures NoSharedBoot(d.participants) <==> BootsUnique(Abs(d))
    ensures forall i :: 0 <= i < |d.participants| ==> Distinct(LiveBoots(d.participants[i]))
  {
    hide ToMap, LiveBoots, BootLive, ParticipantOk;
    var ps, s := d.participants, Abs(d);
    ToMapFacts(ps);
    forall i | 0 <= i < |ps|
      ensures Distinct(LiveBoots(ps[i]))
      ensures forall b :: b in LiveBoots(ps[i]) <==> BootLive(ps[i], b)
    {
      MemberLiveBoots(o, ps[i], d.registrationFloor, d.fenceFloor);
    }
    if NoSharedBoot(ps) {
      UnsharedIsUnique(d);
    }
    if BootsUnique(s) {
      UniqueIsUnshared(d);
    }
  }

  lemma UnsharedIsUnique(d: DurableState)
    requires DistinctParticipants(d.participants) && NoSharedBoot(d.participants)
    requires forall i, b :: 0 <= i < |d.participants| && BootLive(d.participants[i], b) ==> b in LiveBoots(d.participants[i])
    ensures BootsUnique(Abs(d))
  {
    hide ToMap, LiveBoots, BootLive, DistinctParticipants;
    var ps, s := d.participants, Abs(d);
    ToMapFacts(ps);
    forall i, j, b | i in s.participants && j in s.participants && i != j
      ensures !(BootLive(s.participants[i], b) && BootLive(s.participants[j], b))
    {
      var x :| 0 <= x < |ps| && ps[x] == s.participants[i];
      var y :| 0 <= y < |ps| && ps[y] == s.participants[j];
    }
  }

  lemma UniqueIsUnshared(d: DurableState)
    requires DistinctParticipants(d.participants) && BootsUnique(Abs(d))
    requires forall i, b :: 0 <= i < |d.participants| && b in LiveBoots(d.participants[i]) ==> BootLive(d.participants[i], b)
    ensures NoSharedBoot(d.participants)
  {
    hide ToMap, LiveBoots, BootLive;
    var ps, s := d.participants, Abs(d);
    ToMapFacts(ps);
    forall i, j, b | 0 <= i < j < |ps| && b in LiveBoots(ps[i])
      ensures b !in LiveBoots(ps[j])
    {
      assert ps[i].id != ps[j].id && ps[i].id in s.participants && ps[j].id in s.participants;
    }
  }

  lemma MemberLiveBoots(o: Options, p: Participant, registrationFloor: U64, fenceFloor: U64)
    requires ParticipantOk(o, p, registrationFloor, fenceFloor)
    ensures Distinct(LiveBoots(p)) && forall b :: b in LiveBoots(p) <==> BootLive(p, b)
  {
    Preservation.LiveBootsAreLive(p);
  }

  lemma MemberIsValid(o: Options, d: DurableState, p: Participant)
    requires ViableOptions(o) && ParticipantOk(o, p, d.registrationFloor, d.fenceFloor) && LiveCount(p) <= MAX_RECORDS
    ensures ValidParticipant(d, p)
  {
  }

  lemma LiveCountBounded(s: State, id: ParticipantId)
    requires id in s.participants
    ensures LiveCount(s.participants[id]) <= Workers(s)
  {
    TotalPick(s.participants, LiveCount, id);
  }

  lemma HistoriesAreValid(o: Options, d: DurableState)
    requires ViableOptions(o) && DistinctParticipants(d.participants) && Inv(o, Abs(d))
    ensures WithinCeilings(d) && ValidTransitions(d) && ValidFences(d) && ValidControl(d)
  {
    hide ParticipantsOk, GrantsOk, SumsOk, FenceOk, ToMap;
    ToMapSize(d.participants);
    FencesAreValid(d);
  }

  lemma FencesAreValid(d: DurableState)
    requires DistinctParticipants(d.participants) && FencesOk(Abs(d))
    ensures ValidFences(d)
  {
    hide ToMap;
    forall i | 0 <= i < |d.fences|
      ensures ValidFence(d, d.fences[i])
    {
      assert FenceOk(Abs(d), d.fences[i]);
    }
  }

  lemma GrantsAreValid(o: Options, d: DurableState)
    requires DistinctParticipants(d.participants) && GrantsOk(Abs(d))
    ensures ValidGrants(d)
  {
    hide ToMap;
    forall i | 0 <= i < |d.grants|
      ensures ValidParent(d, d.grants[i])
    {
      assert Rooted(d.grants, i);
      if d.grants[i].parent.Some? {
        var j :| 0 <= j < i && d.grants[j].id == d.grants[i].parent.value;
        assert GrantIds(d.grants)[j] == d.grants[i].parent.value;
      }
    }
  }

  /** Validator completeness: whatever the engine reaches, the validator accepts it if and only
      if no boot is live under two participants. Nothing else can make a save refuse. */
  lemma AcceptsIff(o: Options, d: DurableState)
    requires ViableOptions(o) && DistinctParticipants(d.participants) && Inv(o, Abs(d)) && d.epoch != 0
    ensures ValidDurable(d) <==> BootsUnique(Abs(d))
  {
    hide WithinCeilings, ValidTransitions, ValidFences, ValidGrants, ValidControl, ValidParticipant, ToMap, FencesOk, GrantsOk, TransitionsOk, ControlOk, ParticipantOk, NoSharedBoot, BootsUnique;
    var s := Abs(d);
    HistoriesAreValid(o, d);
    GrantsAreValid(o, d);
    SharedBootIff(o, d);
    BootsDistinctIff(d.participants);
    ToMapFacts(d.participants);
    forall i | 0 <= i < |d.participants|
      ensures ValidParticipant(d, d.participants[i])
    {
      LiveCountBounded(s, d.participants[i].id);
      MemberIsValid(o, d, d.participants[i]);
    }
  }
}
