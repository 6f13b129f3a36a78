/** What the executable check rules out, stated over the records themselves and over what the
    accepted state would validate. */
module Consistency {
  import opened Basics
  import opened Model
  import opened Authority
  import opened Invariant
  import opened Canonical
  import opened Validator
  import opened Runs
  import opened Verdicts

  /** An incarnation is an owner, a boot and a sequence: no boot stands for two of them. */
  ghost predicate OneIncarnationPerBoot(ps: seq<Participant>) {
    forall i: nat, j: nat, b: Id, q: U64, r: U64 :: i < |ps| && j < |ps| && IsLive(ps[i], b, q) && IsLive(ps[j], b, r) ==> i == j && q == r
  }

  /** Whatever is live bears a boot, was issued by the allocator, and is not fenced. */
  ghost predicate LiveIsIssued(ps: seq<Participant>) {
    forall i: nat, b: Id, q: U64 :: i < |ps| && IsLive(ps[i], b, q) ==>
      b != NIL && q < ps[i].nextIncarnation && b !in ps[i].fencedBoots
  }

  predicate FloorsCover(d: DurableState) {
    && (forall p :: p in d.participants ==>
          && p.registrationGeneration <= d.registrationFloor && p.fenceGeneration <= d.fenceFloor
          && p.incarnationFloor < p.nextIncarnation && p.id.text != [] && (p.retired ==> !p.hasActiveBoot))
    && (forall f :: f in d.fences ==> f.generation <= d.fenceFloor && f.epoch <= d.epoch && f.boot != NIL)
    && (forall g :: g in d.grants ==> g.epoch <= d.epoch && g.id != NIL && g.scopes != [] && (g.revoked ==> g.revokedAtEpoch <= d.epoch)
                                      && (!g.revoked ==> g.boot != NIL))
    && (forall t :: t in d.transitions ==> t.fromEpoch < t.toEpoch <= d.epoch && t.id != NIL)
    && |d.transitions| <= d.generation
  }

  /** Every delegated grant names another grant that is there. */
  predicate ParentsPresent(gs: seq<Grant>) {
    forall g :: g in gs && g.parent.Some? ==> g.parent.value != g.id && exists h :: h in gs && h.id == g.parent.value
  }

  /** Keys are unique among participants, fence records, grants and transitions, and attempts within a table. */
  predicate KeysUnique(d: DurableState) {
    && (forall i, j :: 0 <= i < j < |d.participants| ==> d.participants[i].id != d.participants[j].id)
    && (forall i, j :: 0 <= i < j < |d.fences| ==>
          d.fences[i].participant != d.fences[j].participant || d.fences[i].boot != d.fences[j].boot)
    && (forall i, j :: 0 <= i < j < |d.grants| ==> d.grants[i].id != d.grants[j].id)
    && (forall i, j :: 0 <= i < j < |d.transitions| ==> d.transitions[i].id != d.transitions[j].id)
    && AttemptsUnique(d.control) && forall p :: p in d.participants ==> AttemptsUnique(p.idempotency)
  }

  predicate AttemptsUnique(table: seq<AttemptRecord>) {
    && (forall r :: r in table ==> r.attempt != NIL)
    && forall i, j :: 0 <= i < j < |table| ==> table[i].attempt != table[j].attempt
  }

  // ---- from the check ----------------------------------------------------

  lemma LiveIsListed(p: Participant, b: Id, q: U64)
    requires IsLive(p, b, q)
    ensures b in LiveBoots(p) && BootLive(p, b)
  {
    if !(p.hasActiveBoot && p.activeBoot == b && p.activeIncarnation == q) {
      var k :| 0 <= k < |p.extras| && p.extras[k].boot == b && p.extras[k].sequence == q;
      assert LiveBoots(p)[k + if p.hasActiveBoot then 1 else 0] == b;
    }
  }

  /** Within one participant, a boot that is listed once has one sequence. */
  lemma OneSequence(p: Participant, b: Id, q: U64, r: U64)
    requires Distinct(LiveBoots(p)) && IsLive(p, b, q) && IsLive(p, b, r)
    ensures q == r
  {
    var x, y := PlaceOf(p, b, q), PlaceOf(p, b, r);
  }

  function SequenceAt(p: Participant, k: nat): U64
    requires k < |LiveBoots(p)|
  {
    if p.hasActiveBoot then (if k == 0 then p.activeIncarnation else p.extras[k - 1].sequence) else p.extras[k].sequence
  }

  ghost function PlaceOf(p: Participant, b: Id, q: U64): (k: nat)
    requires IsLive(p, b, q)
    ensures k < |LiveBoots(p)| && LiveBoots(p)[k] == b && SequenceAt(p, k) == q
  {
    if p.hasActiveBoot && p.activeBoot == b && p.activeIncarnation == q then 0
    else
      var k :| 0 <= k < |p.extras| && p.extras[k].boot == b && p.extras[k].sequence == q;
      if p.hasActiveBoot then k + 1 else k
  }

  lemma {:induction false} EachDistinct(ps: seq<Participant>)
    requires Distinct(AllBoots(ps))
    ensures forall i :: 0 <= i < |ps| ==> Distinct(LiveBoots(ps[i]))
  {
    hide LiveBoots;
    if ps != [] {
      var n := |ps| - 1;
      DistinctConcat(AllBoots(ps[..n]), LiveBoots(ps[n]));
      EachDistinct(ps[..n]);
      assert forall i :: 0 <= i < n ==> ps[..n][i] == ps[i];
    }
  }

  lemma BootsNameOne(ps: seq<Participant>)
    requires Distinct(AllBoots(ps))
    ensures OneIncarnationPerBoot(ps)
  {
    hide LiveBoots, IsLive, Distinct;
    EachDistinct(ps);
    BootsDistinctIff(ps);
    forall i: nat, j: nat, b: Id, q: U64, r: U64 | i < |ps| && j < |ps| && IsLive(ps[i], b, q) && IsLive(ps[j], b, r)
      ensures i == j && q == r
    {
      LiveIsListed(ps[i], b, q);
      LiveIsListed(ps[j], b, r);
      if i == j {
        OneSequence(ps[i], b, q, r);
      }
    }
  }

  lemma ValidIsIssued(d: DurableState, p: Participant, b: Id, q: U64)
    requires ValidParticipant(d, p) && IsLive(p, b, q)
    ensures b != NIL && q < p.nextIncarnation && b !in p.fencedBoots
  {
    LiveIsListed(p, b, q);
    if !(p.hasActiveBoot && p.activeBoot == b && p.activeIncarnation == q) {
      var k :| 0 <= k < |p.extras| && p.extras[k].boot == b && p.extras[k].sequence == q;
      assert ValidExtra(p, p.extras[k]);
    }
  }

  lemma ValidKeys(d: DurableState)
    requires ValidDurable(d) && d.epoch != 0
    ensures KeysUnique(d)
  {
    hide WithinCeilings, AllBoots, Distinct, ValidFence, ValidGrant, ValidParent, ValidTransition, AttemptsUnique, ParticipantIds, FencePairs, GrantIds, TransitionIds, ValidTable;
    DistinctRecords(d);
    TableUnique(d.control);
    forall p | p in d.participants
      ensures AttemptsUnique(p.idempotency)
    {
      TableUnique(p.idempotency);
    }
  }

  lemma DistinctRecords(d: DurableState)
    requires Distinct(ParticipantIds(d.participants)) && Distinct(FencePairs(d.fences))
    requires Distinct(GrantIds(d.grants)) && Distinct(TransitionIds(d.transitions))
    ensures forall i, j :: 0 <= i < j < |d.participants| ==> d.participants[i].id != d.participants[j].id
    ensures forall i, j :: 0 <= i < j < |d.fences| ==>
              d.fences[i].participant != d.fences[j].participant || d.fences[i].boot != d.fences[j].boot
    ensures forall i, j :: 0 <= i < j < |d.grants| ==> d.grants[i].id != d.grants[j].id
    ensures forall i, j :: 0 <= i < j < |d.transitions| ==> d.transitions[i].id != d.transitions[j].id
  {
    var ids, pairs, grants, transitions := ParticipantIds(d.participants), FencePairs(d.fences), GrantIds(d.grants), TransitionIds(d.transitions);
    forall i, j | 0 <= i < j < |d.participants|
      ensures d.participants[i].id != d.participants[j].id
    {
      assert ids[i] != ids[j];
    }
    forall i, j | 0 <= i < j < |d.fences|
      ensures d.fences[i].participant != d.fences[j].participant || d.fences[i].boot != d.fences[j].boot
    {
      assert pairs[i] != pairs[j];
    }
    forall i, j | 0 <= i < j < |d.grants|
      ensures d.grants[i].id != d.grants[j].id
    {
      assert grants[i] != grants[j];
    }
    forall i, j | 0 <= i < j < |d.transitions|
      ensures d.transitions[i].id != d.transitions[j].id
    {
      assert transitions[i] != transitions[j];
    }
  }

  lemma TableUnique(table: seq<AttemptRecord>)
    requires ValidTable(table)
    ensures AttemptsUnique(table)
  {
    var ids := Attempts(table);
    assert forall i :: 0 <= i < |table| ==> ids[i] == table[i].attempt && ids[i] in ids;
  }

  lemma ValidParents(d: DurableState)
    requires ValidGrants(d)
    ensures ParentsPresent(d.grants)
  {
    forall g | g in d.grants && g.parent.Some?
      ensures g.parent.value != g.id && exists h :: h in d.grants && h.id == g.parent.value
    {
      var i :| 0 <= i < |d.grants| && d.grants[i] == g;
      assert ValidParent(d, d.grants[i]);
      var k :| 0 <= k < |d.grants| && GrantIds(d.grants)[k] == g.parent.value;
      assert d.grants[k] in d.grants;
    }
  }

  lemma ValidFloors(d: DurableState)
    requires ValidDurable(d) && d.epoch != 0
    ensures FloorsCover(d)
  {
    hide AllBoots, Distinct, ValidTable;
    forall t | t in d.transitions
      ensures t.id != NIL && t.fromEpoch < t.toEpoch <= d.epoch
    {
      var i :| 0 <= i < |d.transitions| && d.transitions[i] == t;
      assert TransitionIds(d.transitions)[i] == t.id;
      assert ValidTransition(d, d.transitions[i]);
    }
  }

  /** Every state the check accepts is consistent: one incarnation to a boot, nothing live that is fenced
      or was never issued, floors and epochs that cover every record, parents that are there, and unique
      keys. A store that was never established is empty. */
  lemma AcceptedIsConsistent(d: DurableState)
    requires ValidDurable(d)
    ensures d.epoch != 0 ==>
              && OneIncarnationPerBoot(d.participants) && LiveIsIssued(d.participants) && FloorsCover(d)
              && ParentsPresent(d.grants) && KeysUnique(d)
    ensures d.epoch == 0 ==> d.participants == [] && d.fences == [] && d.grants == [] && d.transitions == []
                             && d.registrationFloor == d.fenceFloor == d.generation == 0 && d.coordinatorBoot == NIL
  {
    hide ValidParticipant, ValidFence, ValidGrant, ValidParent, ValidTransition, AllBoots, Distinct, IsLive, FloorsCover, ParentsPresent, KeysUnique;
    if d.epoch != 0 {
      BootsNameOne(d.participants);
      forall i: nat, b: Id, q: U64 | i < |d.participants| && IsLive(d.participants[i], b, q)
        ensures b != NIL && q < d.participants[i].nextIncarnation && b !in d.participants[i].fencedBoots
      {
        ValidIsIssued(d, d.participants[i], b, q);
      }
      ValidFloors(d);
      ValidParents(d);
      ValidKeys(d);
    }
  }

  // ---- what an accepted state admits -------------------------------------

  /** In an accepted state, whatever its history: two requests that validate under one boot, by token or
      by grant, are held by one participant and speak of one incarnation, which its allocator issued. */
  lemma OneHolderPerBoot(d: DurableState, v: ValidateRequest, w: ValidateRequest)
    requires ValidDurable(d) && d.epoch != 0 && DistinctParticipants(d.participants)
    requires Admits(Abs(d), v) && Admits(Abs(d), w) && v.token.boot == w.token.boot
    ensures Holder(Abs(d), v) == Holder(Abs(d), w) && v.token.incarnation == w.token.incarnation
    ensures exists p :: p in d.participants && Holder(Abs(d), v) == Some(p.id)
                        && v.token.incarnation < p.nextIncarnation && v.token.boot !in p.fencedBoots
  {
    hide ValidDurable, Validate, Holder, ToMap, IsLive, DistinctParticipants, FloorsCover, ParentsPresent, KeysUnique;
    var ps, s := d.participants, Abs(d);
    AcceptedIsConsistent(d);
    ToMapFacts(ps);
    CurrentMeansLive(s, v);
    CurrentMeansLive(s, w);
    var i :| 0 <= i < |ps| && ps[i] == s.participants[Holder(s, v).value];
    var j :| 0 <= j < |ps| && ps[j] == s.participants[Holder(s, w).value];
  }
}
