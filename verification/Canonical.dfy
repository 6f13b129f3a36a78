/** The participant vector: its canonical order, and the state it stands for. */
module Canonical {
  import opened Basics
  import opened Model
  import opened Sorting
  import opened Authority

  predicate IdLess(a: Participant, b: Participant) {
    BytesLess(a.id.text, b.id.text)
  }

  lemma IdLessIsStrict()
    ensures StrictOrder(IdLess)
  {
    forall a: Participant, b: Participant | IdLess(a, b)
      ensures !IdLess(b, a)
    {
      BytesLessAsymmetric(a.id.text, b.id.text);
    }
    forall a: Participant, b: Participant, c: Participant | IdLess(a, b) && IdLess(b, c)
      ensures IdLess(a, c)
    {
      BytesLessTransitive(a.id.text, b.id.text, c.id.text);
    }
  }

  predicate DistinctParticipants(ps: seq<Participant>) {
    forall i, j :: 0 <= i < j < |ps| ==> ps[i].id != ps[j].id
  }

  /** Strictly increasing by identifier. */
  predicate SortedById(ps: seq<Participant>) {
    Ordered(ps, IdLess)
  }

  lemma SortedIsDistinct(ps: seq<Participant>)
    requires SortedById(ps)
    ensures DistinctParticipants(ps)
  {
    forall i, j | 0 <= i < j < |ps|
      ensures ps[i].id != ps[j].id
    {
      assert IdLess(ps[i], ps[j]);
      BytesLessAsymmetric(ps[i].id.text, ps[j].id.text);
    }
  }

  lemma DistinctIsComparable(ps: seq<Participant>)
    requires DistinctParticipants(ps)
    ensures Comparable(ps, IdLess)
  {
    forall i, j | 0 <= i < j < |ps|
      ensures IdLess(ps[i], ps[j]) || IdLess(ps[j], ps[i])
    {
      BytesLessTotal(ps[i].id.text, ps[j].id.text);
    }
  }

  lemma OneOfEach(ps: seq<Participant>, x: Participant)
    requires DistinctParticipants(ps)
    ensures multiset(ps)[x] == if x in ps then 1 else 0
  {
    if x in ps {
      var a :| 0 <= a < |ps| && ps[a] == x;
      assert ps == ps[..a] + [ps[a]] + ps[a + 1..];
      assert x !in ps[..a] && x !in ps[a + 1..];
    }
  }

  /** Participants by identifier. */
  function ToMap(ps: seq<Participant>): map<ParticipantId, Participant>
    requires DistinctParticipants(ps)
  {
    map i | 0 <= i < |ps| :: ps[i].id := ps[i]
  }

  /** The abstract state a durable state stands for. */
  function Abs(d: DurableState): State
    requires DistinctParticipants(d.participants)
  {
    State(d.epoch, d.coordinatorBoot, d.generation, d.registrationFloor, d.fenceFloor,
          ToMap(d.participants), d.fences, d.grants, d.transitions, d.control)
  }

  lemma ToMapFacts(ps: seq<Participant>)
    requires DistinctParticipants(ps)
    ensures forall i :: 0 <= i < |ps| ==> ps[i].id in ToMap(ps) && ToMap(ps)[ps[i].id] == ps[i]
    ensures forall id :: id in ToMap(ps) ==> ToMap(ps)[id].id == id && ToMap(ps)[id] in ps
  {
  }

  /** A map that holds exactly the members of a vector, by identifier, is the vector's map. */
  lemma ToMapIs(ps: seq<Participant>, m: map<ParticipantId, Participant>)
    requires DistinctParticipants(ps)
    requires forall i :: 0 <= i < |ps| ==> ps[i].id in m && m[ps[i].id] == ps[i]
    requires forall id :: id in m ==> m[id].id == id && m[id] in ps
    ensures m == ToMap(ps)
  {
    hide ToMap, DistinctParticipants;
    ToMapFacts(ps);
    var n := ToMap(ps);
    forall id | id in m
      ensures id in n && n[id] == m[id]
    {
      var i :| 0 <= i < |ps| && ps[i] == m[id];
    }
    forall id | id in n
      ensures id in m
    {
      var i :| 0 <= i < |ps| && ps[i] == n[id];
    }
  }

  lemma ToMapUpdate(ps: seq<Participant>, i: nat, p: Participant)
    requires DistinctParticipants(ps) && i < |ps| && p.id == ps[i].id
    ensures DistinctParticipants(ps[i := p])
    ensures ToMap(ps[i := p]) == ToMap(ps)[p.id := p]
  {
    hide ToMap;
    ToMapFacts(ps);
    var qs, m := ps[i := p], ToMap(ps)[p.id := p];
    assert qs[i] == p;
    forall id | id in m
      ensures m[id] in qs
    {
      if id != p.id {
        var k :| 0 <= k < |ps| && ps[k] == ToMap(ps)[id];
        assert qs[k] == ps[k];
      }
    }
    ToMapIs(qs, m);
  }

  lemma ToMapAppend(ps: seq<Participant>, p: Participant)
    requires DistinctParticipants(ps) && p.id !in ToMap(ps)
    ensures DistinctParticipants(ps + [p])
    ensures ToMap(ps + [p]) == ToMap(ps)[p.id := p]
  {
    hide ToMap;
    ToMapFacts(ps);
    var qs, m := ps + [p], ToMap(ps)[p.id := p];
    assert forall k :: 0 <= k < |ps| ==> qs[k] == ps[k];
    assert qs[|ps|] == p;
    ToMapIs(qs, m);
  }

  lemma ToMapPermutation(ps: seq<Participant>, qs: seq<Participant>)
    requires DistinctParticipants(ps) && DistinctParticipants(qs) && multiset(ps) == multiset(qs)
    ensures ToMap(ps) == ToMap(qs)
  {
    hide ToMap, DistinctParticipants;
    ToMapFacts(ps);
    var m := ToMap(ps);
    forall i | 0 <= i < |qs|
      ensures qs[i].id in m && m[qs[i].id] == qs[i]
    {
      assert qs[i] in multiset(ps);
    }
    forall id | id in m
      ensures m[id] in qs
    {
      assert m[id] in multiset(qs);
    }
    ToMapIs(qs, m);
  }

  lemma {:induction false} ToMapSize(ps: seq<Participant>)
    requires DistinctParticipants(ps)
    ensures |ToMap(ps)| == |ps|
  {
    if ps != [] {
      var init := ps[..|ps| - 1];
      ToMapSize(init);
      assert ps == init + [ps[|ps| - 1]];
      ToMapAppend(init, ps[|ps| - 1]);
    }
  }

  /** The canonical vector of a participant map is unique: two sorted vectors that stand for
      the same map are equal. */
  lemma CanonicalIsUnique(ps: seq<Participant>, qs: seq<Participant>)
    requires SortedById(ps) && SortedById(qs)
    requires DistinctParticipants(ps) && DistinctParticipants(qs) && ToMap(ps) == ToMap(qs)
    ensures ps == qs
  {
    IdLessIsStrict();
    SameMembers(ps, qs);
    OrderedIsUnique(ps, qs, IdLess);
  }

  lemma SameMembers(ps: seq<Participant>, qs: seq<Participant>)
    requires DistinctParticipants(ps) && DistinctParticipants(qs) && ToMap(ps) == ToMap(qs)
    ensures multiset(ps) == multiset(qs)
  {
    forall x: Participant
      ensures multiset(ps)[x] == multiset(qs)[x]
    {
      OneOfEach(ps, x);
      OneOfEach(qs, x);
      if x in ps {
        var k :| 0 <= k < |ps| && ps[k] == x;
        assert ToMap(qs)[x.id] == x;
      }
      if x in qs {
        var k :| 0 <= k < |qs| && qs[k] == x;
        assert ToMap(ps)[x.id] == x;
      }
    }
  }
}
