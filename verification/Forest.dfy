/** The delegation forest carried by the grant vector, and cascading revocation over it. */
module Forest {
  import opened Basics
  import opened Model

  // ---- lookup ------------------------------------------------------------

  predicate UniqueIds(grants: seq<Grant>) {
    forall i, j :: 0 <= i < j < |grants| ==> grants[i].id != grants[j].id
  }

  function IndexOf(grants: seq<Grant>, id: Id): (r: Option<nat>)
    ensures r.Some? ==> r.value < |grants| && grants[r.value].id == id
    ensures r.None? ==> forall i :: 0 <= i < |grants| ==> grants[i].id != id
  {
    if grants == [] then None
    else
      var last := |grants| - 1;
      if grants[last].id == id then Some(last) else IndexOf(grants[..last], id)
  }

  function ParentOf(grants: seq<Grant>, i: nat): (r: Option<nat>)
    requires i < |grants|
    ensures r.Some? ==> r.value < |grants| && grants[i].parent == Some(grants[r.value].id)
  {
    if grants[i].parent.None? then None else IndexOf(grants, grants[i].parent.value)
  }

  /** Grant `i` is `t` itself, or was delegated directly or indirectly from it. */
  predicate Descends(grants: seq<Grant>, i: nat, t: nat)
    requires i < |grants|
    decreases i
  {
    i == t || (ParentOf(grants, i).Some? && ParentOf(grants, i).value < i && Descends(grants, ParentOf(grants, i).value, t))
  }

  // ---- the invariant -----------------------------------------------------

  predicate ScopesWithin(inner: seq<Scope>, outer: seq<Scope>) {
    forall i :: 0 <= i < |inner| ==> inner[i] in outer
  }

  /** Delegation never widens: parents come first, share the epoch, cover every
      delegated scope, and cannot be revoked while a child is not. */
  predicate Attenuated(parent: Grant, child: Grant) {
    && child.epoch == parent.epoch
    && ScopesWithin(child.scopes, parent.scopes)
    && (parent.revoked ==> child.revoked)
    && child.delegatorBoot == Some(parent.boot)
  }

  predicate Rooted(grants: seq<Grant>, i: nat)
    requires i < |grants|
  {
    grants[i].parent.Some? ==>
      exists j :: 0 <= j < i && grants[j].id == grants[i].parent.value && Attenuated(grants[j], grants[i])
  }

  predicate IsForest(grants: seq<Grant>) {
    && UniqueIds(grants)
    && forall i :: 0 <= i < |grants| ==> Rooted(grants, i)
  }

  lemma ParentPrecedes(grants: seq<Grant>, i: nat)
    requires IsForest(grants) && i < |grants|
    ensures grants[i].parent.Some? ==>
              var p := ParentOf(grants, i);
              p.Some? && p.value < i && Attenuated(grants[p.value], grants[i])
  {
    assert Rooted(grants, i);
  }

  /** Everything a descendant may do, each of its ancestors may do: attenuation is
      transitive along the whole chain, and so is revocation. */
  lemma {:induction false} AncestorsCover(grants: seq<Grant>, i: nat, t: nat)
    requires IsForest(grants) && i < |grants| && t < |grants|
    requires Descends(grants, i, t)
    ensures t <= i
    ensures grants[i].epoch == grants[t].epoch
    ensures ScopesWithin(grants[i].scopes, grants[t].scopes)
    ensures grants[t].revoked ==> grants[i].revoked
    decreases i
  {
    if i != t {
      ParentPrecedes(grants, i);
      var p := ParentOf(grants, i).value;
      AncestorsCover(grants, p, t);
      assert forall k :: 0 <= k < |grants[i].scopes| ==> grants[i].scopes[k] in grants[p].scopes;
    }
  }

  // ---- revocation --------------------------------------------------------

  function Revoke(g: Grant, epoch: U64): Grant {
    g.(revoked := true, revokedAtEpoch := epoch)
  }

  /** Every live grant in the subtree of `t` is revoked; nothing else changes. */
  function RevokeSubtree(grants: seq<Grant>, t: nat, epoch: U64): (r: seq<Grant>)
    ensures |r| == |grants|
  {
    seq(|grants|, i requires 0 <= i < |grants| =>
      if Descends(grants, i, t) && !grants[i].revoked then Revoke(grants[i], epoch) else grants[i])
  }

  ghost function NewlyRevoked(grants: seq<Grant>, t: nat): set<nat> {
    set i: nat | i < |grants| && Descends(grants, i, t) && !grants[i].revoked
  }

  /** Only revocation marks differ between the two vectors, in the forward direction. */
  predicate OnlyRevoked(before: seq<Grant>, after: seq<Grant>, epoch: U64) {
    && |before| == |after|
    && forall i :: 0 <= i < |before| ==>
         after[i] == before[i] || (!before[i].revoked && after[i] == Revoke(before[i], epoch))
  }

  lemma {:induction false} SameParents(before: seq<Grant>, after: seq<Grant>, id: Id)
    requires |before| == |after|
    requires forall i :: 0 <= i < |before| ==> after[i].id == before[i].id
    ensures IndexOf(after, id) == IndexOf(before, id)
  {
    if before != [] {
      var last := |before| - 1;
      assert forall i :: 0 <= i < last ==> after[..last][i] == after[i] && before[..last][i] == before[i];
      SameParents(before[..last], after[..last], id);
    }
  }

  lemma {:induction false} SameDescent(before: seq<Grant>, after: seq<Grant>, i: nat, t: nat)
    requires |before| == |after| && i < |before|
    requires forall k :: 0 <= k < |before| ==> after[k].id == before[k].id && after[k].parent == before[k].parent
    ensures Descends(after, i, t) == Descends(before, i, t)
    decreases i
  {
    if before[i].parent.Some? {
      SameParents(before, after, before[i].parent.value);
      var p := ParentOf(before, i);
      if p.Some? && p.value < i {
        SameDescent(before, after, p.value, t);
      }
    }
  }

  /** The forest survives a revocation: no live child is left under a revoked parent. */
  lemma RevocationKeepsForest(grants: seq<Grant>, t: nat, epoch: U64)
    requires IsForest(grants) && t < |grants|
    ensures IsForest(RevokeSubtree(grants, t, epoch))
  {
    var after := RevokeSubtree(grants, t, epoch);
    forall i | 0 <= i < |after|
      ensures Rooted(after, i)
    {
      ParentPrecedes(grants, i);
      if grants[i].parent.Some? {
        var p := ParentOf(grants, i).value;
        assert Descends(grants, p, t) ==> Descends(grants, i, t);
        assert Attenuated(after[p], after[i]);
      }
    }
  }

  // ---- the worklist ------------------------------------------------------

  /** The index maps the cascade consults: identifier to position, and parent
      identifier to the positions of its direct children. */
  predicate IndexesGrants(grants: seq<Grant>, index: map<Id, nat>) {
    && (forall i :: 0 <= i < |grants| ==> grants[i].id in index && index[grants[i].id] == i)
    && (forall id :: id in index ==> index[id] < |grants| && grants[index[id]].id == id)
  }

  predicate IndexesChildren(grants: seq<Grant>, children: map<Id, seq<nat>>) {
    && (forall id, k :: id in children && 0 <= k < |children[id]| ==>
          children[id][k] < |grants| && grants[children[id][k]].parent == Some(id))
    && (forall i :: 0 <= i < |grants| && grants[i].parent.Some? ==>
          grants[i].parent.value in children && i in children[grants[i].parent.value])
  }

  /** Grant `i` was delegated directly from grant `j`. */
  predicate ChildOf(grants: seq<Grant>, i: nat, j: nat)
    requires i < |grants| && j < |grants|
  {
    grants[i].parent == Some(grants[j].id)
  }

  /** A live child of a revoked parent is still waiting on the worklist. */
  predicate Frontier(shape: seq<Grant>, now: seq<Grant>, pending: seq<Id>)
    requires |shape| == |now|
  {
    forall i, j :: 0 <= i < |shape| && 0 <= j < |shape| && ChildOf(shape, i, j) ==>
      (now[j].revoked && !now[i].revoked ==> shape[i].id in pending)
  }

  /** With nothing left on the worklist, the whole subtree of a revoked grant is revoked. */
  lemma {:induction false} ClosedUnderDescent(shape: seq<Grant>, now: seq<Grant>, i: nat, t: nat)
    requires |shape| == |now| && i < |shape| && t < |shape| && Descends(shape, i, t)
    requires Frontier(shape, now, []) && now[t].revoked
    ensures now[i].revoked
    decreases i
  {
    if i != t {
      var p := ParentOf(shape, i).value;
      ClosedUnderDescent(shape, now, p, t);
      assert ChildOf(shape, i, p) && shape[i].id !in [];
    }
  }

  /** An identifier on the worklist names a grant strictly below `t`. */
  predicate Below(grants: seq<Grant>, id: Id, t: nat) {
    exists i :: t < i < |grants| && grants[i].id == id && Descends(grants, i, t)
  }

  ghost function LiveGrants(grants: seq<Grant>): set<nat> {
    set i: nat | i < |grants| && !grants[i].revoked
  }

  lemma LiveGrantsShrink(before: seq<Grant>, i: nat, epoch: U64)
    requires i < |before| && !before[i].revoked
    ensures LiveGrants(before[i := Revoke(before[i], epoch)]) == LiveGrants(before) - {i}
    ensures |LiveGrants(before[i := Revoke(before[i], epoch)])| == |LiveGrants(before)| - 1
  {
    assert LiveGrants(before[i := Revoke(before[i], epoch)]) == LiveGrants(before) - {i};
    assert i in LiveGrants(before);
  }

  lemma ChildrenAreBelow(grants: seq<Grant>, p: nat, i: nat, t: nat)
    requires IsForest(grants) && p < |grants| && i < |grants| && t < |grants|
    requires Descends(grants, p, t) && grants[i].parent == Some(grants[p].id)
    ensures t < i && Descends(grants, i, t) && Below(grants, grants[i].id, t)
  {
    AncestorsCover(grants, p, t);
    ParentPrecedes(grants, i);
  }

  /** What the cascade keeps between two turns. */
  ghost predicate Progress(before: seq<Grant>, now: seq<Grant>, pending: seq<Id>, t: nat, epoch: U64)
    requires t < |before|
  {
    && OnlyRevoked(before, now, epoch)
    && Frontier(before, now, pending)
    && (forall i :: 0 <= i < |before| && now[i] != before[i] ==> Descends(before, i, t))
    && (if now[t].revoked
        then forall k :: 0 <= k < |pending| ==> Below(before, pending[k], t)
        else pending == [before[t].id] && now == before)
  }

  lemma ProgressInitially(before: seq<Grant>, t: nat, epoch: U64)
    requires IsForest(before) && t < |before| && !before[t].revoked
    ensures Progress(before, before, [before[t].id], t, epoch)
  {
    forall i, j | 0 <= i < |before| && 0 <= j < |before| && ChildOf(before, i, j) && before[j].revoked
      ensures before[i].revoked
    {
      ParentPrecedes(before, i);
    }
  }

  /** A popped grant that is already revoked leaves the frontier intact. */
  lemma ProgressSkips(before: seq<Grant>, now: seq<Grant>, pending: seq<Id>, t: nat, epoch: U64, i: nat)
    requires UniqueIds(before) && t < |before| && Progress(before, now, pending, t, epoch)
    requires pending != [] && i < |before| && before[i].id == pending[|pending| - 1] && now[i].revoked
    ensures Progress(before, now, pending[..|pending| - 1], t, epoch)
  {
    assert now[t].revoked;
  }

  function ChildIds(grants: seq<Grant>, kids: seq<nat>): (r: seq<Id>)
    requires forall k :: 0 <= k < |kids| ==> kids[k] < |grants|
    ensures |r| == |kids|
  {
    seq(|kids|, k requires 0 <= k < |kids| => grants[kids[k]].id)
  }

  function ChildrenAt(children: map<Id, seq<nat>>, id: Id): seq<nat> {
    if id in children then children[id] else []
  }

  /** `kids` lists the direct children of grant `i`, and nothing else. */
  predicate ListsChildren(grants: seq<Grant>, i: nat, kids: seq<nat>)
    requires i < |grants|
  {
    && (forall k :: 0 <= k < |kids| ==> kids[k] < |grants| && ChildOf(grants, kids[k], i))
    && (forall j :: 0 <= j < |grants| && ChildOf(grants, j, i) ==> j in kids)
  }

  lemma VisitKeepsFrontier(before: seq<Grant>, now: seq<Grant>, pending: seq<Id>, epoch: U64, i: nat, kids: seq<nat>)
    requires UniqueIds(before) && |now| == |before| && Frontier(before, now, pending)
    requires pending != [] && i < |before| && before[i].id == pending[|pending| - 1]
    requires ListsChildren(before, i, kids)
    ensures Frontier(before, now[i := Revoke(now[i], epoch)], pending[..|pending| - 1] + ChildIds(before, kids))
  {
    var after := now[i := Revoke(now[i], epoch)];
    var next := pending[..|pending| - 1] + ChildIds(before, kids);
    forall j, p | 0 <= j < |before| && 0 <= p < |before| && ChildOf(before, j, p) && after[p].revoked && !after[j].revoked
      ensures before[j].id in next
    {
      if p == i {
        var k :| 0 <= k < |kids| && kids[k] == j;
        assert next[|pending| - 1 + k] == before[j].id;
      } else {
        var k :| 0 <= k < |pending| && pending[k] == before[j].id;
        assert k < |pending| - 1 && next[k] == before[j].id;
      }
    }
  }

  lemma VisitKeepsBelow(before: seq<Grant>, pending: seq<Id>, t: nat, i: nat, kids: seq<nat>)
    requires IsForest(before) && t < |before| && i < |before| && Descends(before, i, t) && pending != []
    requires ListsChildren(before, i, kids)
    requires forall k :: 0 <= k < |pending| - 1 ==> Below(before, pending[k], t)
    ensures var next := pending[..|pending| - 1] + ChildIds(before, kids);
            forall k :: 0 <= k < |next| ==> Below(before, next[k], t)
  {
    var next := pending[..|pending| - 1] + ChildIds(before, kids);
    forall k | 0 <= k < |next|
      ensures Below(before, next[k], t)
    {
      if k >= |pending| - 1 {
        ChildrenAreBelow(before, i, kids[k - (|pending| - 1)], t);
      }
    }
  }

  /** Revoking a popped grant and queueing its children restores the frontier. */
  lemma ProgressVisits(before: seq<Grant>, now: seq<Grant>, pending: seq<Id>, t: nat, epoch: U64, i: nat, kids: seq<nat>)
    requires IsForest(before) && t < |before| && Progress(before, now, pending, t, epoch)
    requires pending != [] && i < |before| && before[i].id == pending[|pending| - 1] && !now[i].revoked
    requires ListsChildren(before, i, kids)
    ensures Progress(before, now[i := Revoke(now[i], epoch)], pending[..|pending| - 1] + ChildIds(before, kids), t, epoch)
  {
    VisitedIsBelow(before, now, pending, t, epoch, i);
    VisitKeepsFrontier(before, now, pending, epoch, i, kids);
    VisitKeepsBelow(before, pending, t, i, kids);
  }

  lemma VisitedIsBelow(before: seq<Grant>, now: seq<Grant>, pending: seq<Id>, t: nat, epoch: U64, i: nat)
    requires UniqueIds(before) && t < |before| && Progress(before, now, pending, t, epoch)
    requires pending != [] && i < |before| && before[i].id == pending[|pending| - 1]
    ensures Descends(before, i, t)
    ensures now[t].revoked ==> t < i
    ensures !now[t].revoked ==> i == t
  {
    if now[t].revoked {
      assert Below(before, pending[|pending| - 1], t);
    } else {
      assert pending[0] == before[t].id;
    }
  }

  /** The worklist is empty only once exactly the subtree has been revoked. */
  lemma ProgressEnds(before: seq<Grant>, now: seq<Grant>, t: nat, epoch: U64)
    requires t < |before| && Progress(before, now, [], t, epoch)
    ensures now == RevokeSubtree(before, t, epoch)
  {
    forall i | 0 <= i < |before|
      ensures now[i] == RevokeSubtree(before, t, epoch)[i]
    {
      if Descends(before, i, t) {
        ClosedUnderDescent(before, now, i, t);
      }
    }
  }

  lemma NewlyRevokedCount(before: seq<Grant>, t: nat, epoch: U64)
    requires t < |before| && !before[t].revoked
    ensures |NewlyRevoked(before, t)| == |LiveGrants(before)| - |LiveGrants(RevokeSubtree(before, t, epoch))|
    ensures |NewlyRevoked(before, t)| > 0
  {
    assert NewlyRevoked(before, t) == LiveGrants(before) - LiveGrants(RevokeSubtree(before, t, epoch));
    assert LiveGrants(RevokeSubtree(before, t, epoch)) <= LiveGrants(before);
    assert t in NewlyRevoked(before, t);
  }

  /** Queues the identifier of every listed child. */
  method PushChildren(grants: seq<Grant>, kids: seq<nat>, queued: seq<Id>) returns (pending: seq<Id>)
    requires forall k :: 0 <= k < |kids| ==> kids[k] < |grants|
    ensures pending == queued + ChildIds(grants, kids)
  {
    pending := queued;
    for k := 0 to |kids|
      invariant pending == queued + ChildIds(grants, kids)[..k]
    {
      pending := pending + [grants[kids[k]].id];
    }
  }

  /** The cascade: pops an identifier, revokes the grant it names and queues its
      children, until nothing is queued. `index` and `children` are the runtime's maps. */
  method Cascade(before: seq<Grant>, index: map<Id, nat>, children: map<Id, seq<nat>>, t: nat, epoch: U64)
    returns (grants: seq<Grant>, revoked: nat)
    requires IsForest(before) && t < |before| && !before[t].revoked
    requires IndexesGrants(before, index) && IndexesChildren(before, children)
    ensures grants == RevokeSubtree(before, t, epoch)
    ensures revoked == |NewlyRevoked(before, t)| && revoked > 0
  {
    grants, revoked := before, 0;
    var root := before[t].id;
    var pending := [root];
    ProgressInitially(before, t, epoch);
    while pending != []
      invariant Progress(before, grants, pending, t, epoch)
      invariant revoked == |LiveGrants(before)| - |LiveGrants(grants)|
      decreases |LiveGrants(grants)|, |pending|
    {
      var current := pending[|pending| - 1];
      ghost var queued := pending;
      pending := pending[..|pending| - 1];
      if current !in index {
        assert false;
      }
      var i := index[current];
      VisitedIsBelow(before, grants, queued, t, epoch, i);
      if grants[i].revoked && current != root {
        ProgressSkips(before, grants, queued, t, epoch, i);
        continue;
      }
      var kids := ChildrenAt(children, current);
      assert ListsChildren(before, i, kids);
      if !grants[i].revoked {
        ProgressVisits(before, grants, queued, t, epoch, i, kids);
        LiveGrantsShrink(grants, i, epoch);
        grants := grants[i := Revoke(grants[i], epoch)];
        revoked := revoked + 1;
      } else {
        assert false;
      }
      pending := PushChildren(before, kids, pending);
    }
    ProgressEnds(before, grants, t, epoch);
    NewlyRevokedCount(before, t, epoch);
  }
}
