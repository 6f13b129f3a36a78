/** The secondary indexes of the runtime: what a rebuild computes, and why a lookup through
    an index agrees with a scan of the records. */
module Indexes {
  import opened Basics
  import opened Model
  import opened Forest
  import opened Authority
  import opened Canonical

  // ---- what a rebuild computes -------------------------------------------

  function ParticipantIndex(ps: seq<Participant>): map<ParticipantId, nat> {
    if ps == [] then map[] else ParticipantIndex(ps[..|ps| - 1])[ps[|ps| - 1].id := |ps| - 1]
  }

  /** Maps every listed boot to a position, the last claim winning. */
  function ClaimBoots(index: map<Id, nat>, boots: seq<Id>, position: nat): map<Id, nat> {
    if boots == [] then index else ClaimBoots(index, boots[..|boots| - 1], position)[boots[|boots| - 1] := position]
  }

  function BootIndex(ps: seq<Participant>): map<Id, nat> {
    if ps == [] then map[]
    else ClaimBoots(BootIndex(ps[..|ps| - 1]), LiveBoots(ps[|ps| - 1]), |ps| - 1)
  }

  function PushAt(index: map<Id, seq<nat>>, key: Id, position: nat): map<Id, seq<nat>> {
    index[key := (if key in index then index[key] else []) + [position]]
  }

  function FenceIndex(fences: seq<FenceRecord>): map<Id, seq<nat>> {
    if fences == [] then map[] else PushAt(FenceIndex(fences[..|fences| - 1]), fences[|fences| - 1].boot, |fences| - 1)
  }

  function GrantIndex(grants: seq<Grant>): map<Id, nat> {
    if grants == [] then map[] else GrantIndex(grants[..|grants| - 1])[grants[|grants| - 1].id := |grants| - 1]
  }

  function GrantChildren(grants: seq<Grant>): map<Id, seq<nat>> {
    if grants == [] then map[]
    else
      var init := GrantChildren(grants[..|grants| - 1]);
      var g := grants[|grants| - 1];
      if g.parent.Some? then PushAt(init, g.parent.value, |grants| - 1) else init
  }

  function SumLive(ps: seq<Participant>): nat {
    if ps == [] then 0 else SumLive(ps[..|ps| - 1]) + LiveCount(ps[|ps| - 1])
  }

  // ---- participants ------------------------------------------------------

  lemma {:induction false} ParticipantIndexFinds(ps: seq<Participant>, id: ParticipantId)
    requires DistinctParticipants(ps)
    ensures id in ParticipantIndex(ps) <==> id in ToMap(ps)
    ensures id in ParticipantIndex(ps) ==>
              ParticipantIndex(ps)[id] < |ps| && ps[ParticipantIndex(ps)[id]].id == id
              && ps[ParticipantIndex(ps)[id]] == ToMap(ps)[id]
  {
    if ps != [] {
      var init := ps[..|ps| - 1];
      assert forall i :: 0 <= i < |init| ==> init[i] == ps[i];
      ParticipantIndexFinds(init, id);
      assert id in ToMap(ps) <==> id in ToMap(init) || id == ps[|ps| - 1].id;
    }
  }

  /** Replacing a record in place, under the same identifier, leaves the index as it is. */
  lemma {:induction false} ParticipantIndexInPlace(ps: seq<Participant>, qs: seq<Participant>)
    requires |ps| == |qs| && forall i :: 0 <= i < |ps| ==> qs[i].id == ps[i].id
    ensures ParticipantIndex(qs) == ParticipantIndex(ps)
  {
    if ps != [] {
      ParticipantIndexInPlace(ps[..|ps| - 1], qs[..|qs| - 1]);
    }
  }

  lemma {:induction false} SumLiveIsTotal(ps: seq<Participant>)
    requires DistinctParticipants(ps)
    ensures SumLive(ps) == Total(ToMap(ps), LiveCount)
  {
    hide ToMap;
    if ps != [] {
      var init, p := ps[..|ps| - 1], ps[|ps| - 1];
      assert ps == init + [p];
      SumLiveIsTotal(init);
      LastIsNew(ps);
      ToMapAppend(init, p);
      TotalUpdate(ToMap(init), LiveCount, p.id, p);
    } else {
      ToMapFacts(ps);
      assert ToMap(ps) == map[];
    }
  }

  lemma LastIsNew(ps: seq<Participant>)
    requires DistinctParticipants(ps) && ps != []
    ensures ps[|ps| - 1].id !in ToMap(ps[..|ps| - 1])
  {
  }

  // ---- fences ------------------------------------------------------------

  /** The positions filed under a boot are exactly those of its records, in order. */
  lemma {:induction false} FenceIndexLists(fences: seq<FenceRecord>, boot: Id)
    ensures boot in FenceIndex(fences) ==> forall k :: 0 <= k < |FenceIndex(fences)[boot]| ==>
              FenceIndex(fences)[boot][k] < |fences| && fences[FenceIndex(fences)[boot][k]].boot == boot
    ensures boot in FenceIndex(fences) ==> forall j, k :: 0 <= j < k < |FenceIndex(fences)[boot]| ==>
              FenceIndex(fences)[boot][j] < FenceIndex(fences)[boot][k]
    ensures forall i :: 0 <= i < |fences| && fences[i].boot == boot ==>
              boot in FenceIndex(fences) && i in FenceIndex(fences)[boot]
  {
    if fences != [] {
      var n := |fences| - 1;
      var init := fences[..n];
      assert forall i :: 0 <= i < n ==> init[i] == fences[i];
      FenceIndexLists(init, boot);
      if fences[n].boot == boot {
        var list := FenceIndex(fences)[boot];
        assert list[|list| - 1] == n;
      }
    }
  }

  /** The oldest record among the listed positions that belongs to this participant. Only the
      participant is compared: the boot at a listed position is taken on trust, and positions
      past the end are skipped. */
  function FirstListed(fences: seq<FenceRecord>, positions: seq<nat>, id: ParticipantId): Option<FenceRecord> {
    if positions == [] then None
    else if positions[0] < |fences| && fences[positions[0]].participant == id then Some(fences[positions[0]])
    else FirstListed(fences, positions[1..], id)
  }

  function Listed(index: map<Id, seq<nat>>, boot: Id): seq<nat> {
    if boot in index then index[boot] else []
  }

  lemma {:induction false} FirstListedIsFirst(fences: seq<FenceRecord>, positions: seq<nat>, id: ParticipantId, boot: Id, from: nat)
    requires from <= |fences|
    requires forall k :: 0 <= k < |positions| ==> from <= positions[k] < |fences| && fences[positions[k]].boot == boot
    requires forall j, k :: 0 <= j < k < |positions| ==> positions[j] < positions[k]
    requires forall i :: from <= i < |fences| && fences[i].boot == boot ==> i in positions
    ensures FirstListed(fences, positions, id) == FindRecord(fences[from..], id, boot)
    decreases |fences| - from
  {
    if from < |fences| {
      assert fences[from..][1..] == fences[from + 1..];
      assert fences[from..][0] == fences[from];
      if positions != [] && positions[0] == from {
        var rest := positions[1..];
        assert forall k :: 0 <= k < |rest| ==> rest[k] == positions[k + 1];
        if fences[from].participant != id {
          forall i | from + 1 <= i < |fences| && fences[i].boot == boot
            ensures i in rest
          {
            var k :| 0 <= k < |positions| && positions[k] == i;
            assert rest[k - 1] == i;
          }
          FirstListedIsFirst(fences, rest, id, boot, from + 1);
        }
      } else {
        assert forall k :: 0 <= k < |positions| ==> positions[k] > from;
        FirstListedIsFirst(fences, positions, id, boot, from + 1);
      }
    }
  }

  /** Index refinement for fences: through a rebuilt index, the lookup finds exactly the record
      a scan of the retained history finds, although it never rechecks the boot. */
  lemma IndexedLookupAgrees(fences: seq<FenceRecord>, id: ParticipantId, boot: Id)
    ensures FirstListed(fences, Listed(FenceIndex(fences), boot), id) == FindRecord(fences, id, boot)
  {
    FenceIndexLists(fences, boot);
    FirstListedIsFirst(fences, Listed(FenceIndex(fences), boot), id, boot, 0);
    assert fences[0..] == fences;
  }

  // ---- grants ------------------------------------------------------------

  lemma {:induction false} GrantIndexFinds(grants: seq<Grant>, id: Id)
    ensures id in GrantIndex(grants) <==> IndexOf(grants, id).Some?
    ensures id in GrantIndex(grants) ==> GrantIndex(grants)[id] == IndexOf(grants, id).value
  {
    if grants != [] {
      GrantIndexFinds(grants[..|grants| - 1], id);
    }
  }

  lemma GrantIndexIndexes(grants: seq<Grant>)
    requires UniqueIds(grants)
    ensures IndexesGrants(grants, GrantIndex(grants))
  {
    forall i | 0 <= i < |grants|
      ensures grants[i].id in GrantIndex(grants) && GrantIndex(grants)[grants[i].id] == i
    {
      GrantIndexFinds(grants, grants[i].id);
    }
    forall id | id in GrantIndex(grants)
      ensures GrantIndex(grants)[id] < |grants| && grants[GrantIndex(grants)[id]].id == id
    {
      GrantIndexFinds(grants, id);
    }
  }

  lemma {:induction false} GrantChildrenIndexes(grants: seq<Grant>)
    ensures IndexesChildren(grants, GrantChildren(grants))
  {
    if grants != [] {
      var n := |grants| - 1;
      var init := grants[..n];
      assert forall i :: 0 <= i < n ==> init[i] == grants[i];
      GrantChildrenIndexes(init);
      var before, after := GrantChildren(init), GrantChildren(grants);
      if grants[n].parent.Some? {
        var key := grants[n].parent.value;
        assert after == PushAt(before, key, n);
        assert after[key][|after[key]| - 1] == n;
        forall i | 0 <= i < |grants| && grants[i].parent.Some?
          ensures grants[i].parent.value in after && i in after[grants[i].parent.value]
        {
          if i < n {
            assert i in before[grants[i].parent.value];
          }
        }
      }
    }
  }
}
