/** The linear scans the engine makes, each computing the function of the same meaning. */
module Scans {
  import opened Basics
  import opened Model
  import opened Sorting
  import opened Authority
  import opened Canonical
  import opened Undoing

  method ScanAttempts(table: seq<AttemptRecord>, attempt: Id) returns (r: Option<AttemptRecord>)
    ensures r == FindAttempt(table, attempt)
  {
    for i := 0 to |table|
      invariant FindAttempt(table, attempt) == FindAttempt(table[i..], attempt)
    {
      if table[i].attempt == attempt {
        return Some(table[i]);
      }
      assert table[i..][1..] == table[i + 1..];
    }
    return None;
  }

  method ScanIncarnation(p: Participant, boot: Id) returns (r: Option<U64>)
    ensures r == FindIncarnation(p, boot)
  {
    if p.hasActiveBoot && p.activeBoot == boot {
      return Some(p.activeIncarnation);
    }
    for i := 0 to |p.extras|
      invariant FindExtra(p.extras, boot) == FindExtra(p.extras[i..], boot)
    {
      if p.extras[i].boot == boot {
        return Some(p.extras[i].sequence);
      }
      assert p.extras[i..][1..] == p.extras[i + 1..];
    }
    return None;
  }

  /** Drops every extra incarnation bound to the boot, keeping the others in order. */
  method DropsExtras(extras: seq<ActiveIncarnation>, boot: Id) returns (kept: seq<ActiveIncarnation>)
    ensures kept == Without(extras, boot)
  {
    hide Without;
    kept := [];
    assert extras[0..] == extras && [] + Without(extras, boot) == Without(extras, boot);
    for i := 0 to |extras|
      invariant kept + Without(extras[i..], boot) == Without(extras, boot)
    {
      WithoutStep(kept, extras, i, boot);
      if extras[i].boot != boot {
        kept := kept + [extras[i]];
      }
    }
    NothingWithout(extras[|extras|..], boot);
    assert kept + [] == kept;
  }

  lemma NothingWithout(extras: seq<ActiveIncarnation>, boot: Id)
    requires extras == []
    ensures Without(extras, boot) == []
  {
  }

  lemma WithoutStep(kept: seq<ActiveIncarnation>, extras: seq<ActiveIncarnation>, i: nat, boot: Id)
    requires i < |extras|
    ensures kept + Without(extras[i..], boot) ==
            (if extras[i].boot == boot then kept else kept + [extras[i]]) + Without(extras[i + 1..], boot)
  {
    assert extras[i..][1..] == extras[i + 1..];
    var rest := Without(extras[i + 1..], boot);
    assert kept + ([extras[i]] + rest) == (kept + [extras[i]]) + rest;
  }

  method TakesOut(p: Participant, boot: Id) returns (q: Participant)
    ensures q == RemoveLive(p, boot) && q == p.(hasActiveBoot := q.hasActiveBoot, activeBoot := q.activeBoot,
                                                activeIncarnation := q.activeIncarnation, extras := q.extras)
  {
    if p.hasActiveBoot && p.activeBoot == boot {
      if p.extras != [] {
        q := p.(activeBoot := p.extras[0].boot, activeIncarnation := p.extras[0].sequence, extras := p.extras[1..]);
      } else {
        q := p.(hasActiveBoot := false, activeBoot := NIL, activeIncarnation := 0);
      }
    } else {
      var kept := DropsExtras(p.extras, boot);
      q := p.(extras := kept);
    }
  }

  method ScanPositions(ps: seq<Participant>, id: ParticipantId) returns (r: Option<nat>)
    ensures r == PositionOf(ps, id)
  {
    for i := 0 to |ps|
      invariant PositionOf(ps, id) ==
                (var rest := PositionOf(ps[i..], id); if rest.Some? then Some(rest.value + i) else None)
    {
      if ps[i].id == id {
        return Some(i);
      }
      assert ps[i..][1..] == ps[i + 1..];
    }
    return None;
  }

  /** Adjacent order is total order: what lets a save skip the sort. */
  method IsSorted(ps: seq<Participant>) returns (r: bool)
    requires DistinctParticipants(ps)
    ensures r <==> SortedById(ps)
  {
    IdLessIsStrict();
    if ps == [] {
      return true;
    }
    for i := 1 to |ps|
      invariant SortedById(ps[..i])
    {
      if BytesLess(ps[i].id.text, ps[i - 1].id.text) {
        assert !IdLess(ps[i - 1], ps[i]);
        return false;
      }
      BytesLessTotal(ps[i].id.text, ps[i - 1].id.text);
      SortedStep(ps, i);
    }
    assert ps[..|ps|] == ps;
    return true;
  }

  lemma SortedStep(ps: seq<Participant>, i: nat)
    requires 1 <= i < |ps| && SortedById(ps[..i]) && BytesLess(ps[i - 1].id.text, ps[i].id.text)
    ensures SortedById(ps[..i + 1])
  {
    forall a, b | 0 <= a < b < i + 1
      ensures IdLess(ps[a], ps[b])
    {
      if b < i {
        assert IdLess(ps[..i][a], ps[..i][b]);
      } else if a < i - 1 {
        assert IdLess(ps[..i][a], ps[..i][i - 1]);
        BytesLessTransitive(ps[a].id.text, ps[i - 1].id.text, ps[i].id.text);
      }
    }
  }
}
