/** Undoing a revocation: the worklist that clears the marks of a whole subtree. */
module Revival {
  import opened Basics
  import opened Model
  import opened Forest
  import opened Indexes
  import opened Undoing

  function Cleared(g: Grant): Grant {
    g.(revoked := false, revokedAtEpoch := 0)
  }

  /** No child is listed twice. */
  predicate DistinctLists(children: map<Id, seq<nat>>) {
    forall id, j, k :: id in children && 0 <= j < k < |children[id]| ==> children[id][j] != children[id][k]
  }

  lemma {:induction false} GrantChildrenDistinct(grants: seq<Grant>)
    ensures DistinctLists(GrantChildren(grants))
    ensures forall id, k :: id in GrantChildren(grants) && 0 <= k < |GrantChildren(grants)[id]| ==> GrantChildren(grants)[id][k] < |grants|
  {
    if grants != [] {
      GrantChildrenDistinct(grants[..|grants| - 1]);
    }
  }

  /** Exactly the visited grants have been cleared. */
  ghost predicate Marked(before: seq<Grant>, now: seq<Grant>, done: set<nat>) {
    && |now| == |before|
    && forall i :: 0 <= i < |before| ==> now[i] == if i in done then Cleared(before[i]) else before[i]
  }

  /** What is queued is below the root, not visited, and queued once. */
  ghost predicate Queued(before: seq<Grant>, queue: seq<nat>, done: set<nat>, t: nat) {
    && (forall k :: 0 <= k < |queue| ==> queue[k] < |before| && queue[k] !in done && Descends(before, queue[k], t))
    && (forall j, k :: 0 <= j < k < |queue| ==> queue[j] != queue[k])
    && (forall i :: i in done ==> i < |before| && Descends(before, i, t))
  }

  /** Every child of a visited grant is visited or queued. */
  ghost predicate Closed(before: seq<Grant>, queue: seq<nat>, done: set<nat>) {
    forall c :: 0 <= c < |before| && ParentOf(before, c).Some? && ParentOf(before, c).value in done ==> c in done || c in queue
  }

  /** Everything but the root was reached through its parent. */
  ghost predicate Traced(before: seq<Grant>, queue: seq<nat>, done: set<nat>, t: nat) {
    && (t in done || t in queue)
    && forall c :: 0 <= c < |before| && c != t && (c in done || c in queue) ==>
         ParentOf(before, c).Some? && ParentOf(before, c).value in done
  }

  ghost predicate Sweep(before: seq<Grant>, now: seq<Grant>, queue: seq<nat>, done: set<nat>, t: nat) {
    Marked(before, now, done) && Queued(before, queue, done, t) && Closed(before, queue, done) && Traced(before, queue, done, t)
  }

  /** The listed positions are exactly the direct children of grant `i`, each once. */
  ghost predicate Lists(before: seq<Grant>, i: nat, kids: seq<nat>)
    requires i < |before|
  {
    && (forall k :: 0 <= k < |kids| ==> kids[k] < |before| && before[kids[k]].parent == Some(before[i].id))
    && (forall c :: 0 <= c < |before| && before[c].parent == Some(before[i].id) ==> c in kids)
    && (forall j, k :: 0 <= j < k < |kids| ==> kids[j] != kids[k])
  }

  /** A child of a queued grant is new to the sweep. */
  lemma ChildIsNew(before: seq<Grant>, queue: seq<nat>, done: set<nat>, t: nat, i: nat, c: nat)
    requires IsForest(before) && t < |before| && Queued(before, queue, done, t) && Traced(before, queue, done, t)
    requires i < |before| && i in queue && c < |before| && before[c].parent == Some(before[i].id)
    ensures c !in done && c !in queue && Descends(before, c, t) && ParentOf(before, c) == Some(i)
  {
    var k :| 0 <= k < |queue| && queue[k] == i;
    ChildrenAreBelow(before, i, c, t);
    ParentPrecedes(before, c);
    var p := ParentOf(before, c).value;
    assert before[p].id == before[i].id;
    assert p == i;
  }

  /** Where the queue stands after a visit. */
  function Requeued(queue: seq<nat>, kids: seq<nat>): (r: seq<nat>)
    requires queue != []
    ensures forall c :: c in r <==> c in queue[..|queue| - 1] || c in kids
  {
    queue[..|queue| - 1] + kids
  }

  lemma VisitKeepsQueued(before: seq<Grant>, queue: seq<nat>, done: set<nat>, t: nat, kids: seq<nat>)
    requires t < |before| && queue != [] && Queued(before, queue, done, t)
    requires forall k :: 0 <= k < |kids| ==>
               kids[k] < |before| && kids[k] !in done && kids[k] !in queue && Descends(before, kids[k], t)
    requires forall j, k :: 0 <= j < k < |kids| ==> kids[j] != kids[k]
    ensures Queued(before, Requeued(queue, kids), done + {queue[|queue| - 1]}, t)
  {
    hide Descends;
    var i, left := queue[|queue| - 1], queue[..|queue| - 1];
    var next := Requeued(queue, kids);
    forall k | 0 <= k < |next|
      ensures next[k] < |before| && next[k] !in done + {i} && Descends(before, next[k], t)
    {
      if k < |left| {
        assert next[k] == queue[k];
      } else {
        assert next[k] == kids[k - |left|] && i in queue;
      }
    }
    forall j, k | 0 <= j < k < |next|
      ensures next[j] != next[k]
    {
      if j < |left| {
        assert next[j] == queue[j] && queue[j] in queue;
      }
    }
  }

  lemma VisitKeepsTrace(before: seq<Grant>, queue: seq<nat>, done: set<nat>, t: nat, kids: seq<nat>)
    requires IsForest(before) && t < |before| && queue != [] && queue[|queue| - 1] < |before|
    requires Closed(before, queue, done) && Traced(before, queue, done, t)
    requires Lists(before, queue[|queue| - 1], kids)
    requires forall k :: 0 <= k < |kids| ==> ParentOf(before, kids[k]) == Some(queue[|queue| - 1])
    ensures Closed(before, Requeued(queue, kids), done + {queue[|queue| - 1]})
    ensures Traced(before, Requeued(queue, kids), done + {queue[|queue| - 1]}, t)
  {
    hide IsForest, IndexOf, ParentOf;
    var i, left := queue[|queue| - 1], queue[..|queue| - 1];
    assert queue == left + [i];
    forall c | 0 <= c < |before| && ParentOf(before, c) == Some(i)
      ensures c in kids
    {
      assert before[c].parent == Some(before[i].id);
    }
  }

  lemma SweepVisits(before: seq<Grant>, now: seq<Grant>, queue: seq<nat>, done: set<nat>, t: nat, kids: seq<nat>)
    requires IsForest(before) && t < |before| && queue != [] && Sweep(before, now, queue, done, t)
    ensures queue[|queue| - 1] < |before| && queue[|queue| - 1] !in done && |now| == |before|
    ensures var i := queue[|queue| - 1];
            Lists(before, i, kids) ==> Sweep(before, now[i := Cleared(now[i])], Requeued(queue, kids), done + {i}, t)
  {
    hide Descends, IsForest, Closed, Traced, Requeued, ParentOf;
    var i := queue[|queue| - 1];
    if Lists(before, i, kids) {
      forall k | 0 <= k < |kids|
        ensures kids[k] !in done && kids[k] !in queue && Descends(before, kids[k], t) && ParentOf(before, kids[k]) == Some(i)
      {
        ChildIsNew(before, queue, done, t, i, kids[k]);
      }
      VisitKeepsQueued(before, queue, done, t, kids);
      VisitKeepsTrace(before, queue, done, t, kids);
    }
  }

  lemma {:induction false} SweptAll(before: seq<Grant>, done: set<nat>, t: nat, i: nat)
    requires t < |before| && i < |before| && Closed(before, [], done) && t in done && Descends(before, i, t)
    ensures i in done
    decreases i
  {
    hide IndexOf;
    if i != t {
      SweptAll(before, done, t, ParentOf(before, i).value);
    }
  }

  /** Clears the marks of the grant at `t` and of everything delegated from it, whatever revoked
      them: the order of visits does not matter, and no grant is visited twice. */
  method ReviveSubtree(before: seq<Grant>, index: map<Id, nat>, children: map<Id, seq<nat>>, t: nat) returns (grants: seq<Grant>)
    requires IsForest(before) && t < |before|
    requires IndexesGrants(before, index) && IndexesChildren(before, children) && DistinctLists(children)
    ensures grants == RestoreSubtree(before, t)
  {
    hide Descends, IsForest, Sweep, Lists, Requeued, RestoreSubtree;
    grants := before;
    var pending := [before[t].id];
    ghost var queue: seq<nat>, done: set<nat> := [t], {};
    SweepStarts(before, t);
    while pending != []
      invariant Names(before, queue, pending)
      invariant Sweep(before, grants, queue, done, t) && |grants| == |before| && done <= AllPositions(before)
      decreases |AllPositions(before) - done|
    {
      var current := pending[|pending| - 1];
      pending := pending[..|pending| - 1];
      var i := index[current];
      assert i == queue[|queue| - 1];
      var kids := ChildrenAt(children, current);
      KidsAre(before, children, i, kids);
      SweepVisits(before, grants, queue, done, t, kids);
      grants := grants[i := Cleared(grants[i])];
      assert i in AllPositions(before);
      Shrinks(AllPositions(before), done, i);
      pending := PushChildren(before, kids, pending);
      NamesOn(before, queue, kids);
      queue := Requeued(queue, kids);
      done := done + {i};
    }
    SweepEnds(before, grants, done, t);
  }

  /** The identifiers queued are those of the positions queued. */
  predicate Names(before: seq<Grant>, queue: seq<nat>, pending: seq<Id>) {
    && |queue| == |pending|
    && forall k :: 0 <= k < |queue| ==> queue[k] < |before| && pending[k] == before[queue[k]].id
  }

  lemma NamesOn(before: seq<Grant>, queue: seq<nat>, kids: seq<nat>)
    requires queue != [] && (forall k :: 0 <= k < |queue| ==> queue[k] < |before|)
    requires forall k :: 0 <= k < |kids| ==> kids[k] < |before|
    ensures forall pending :: Names(before, queue, pending) ==>
              Names(before, Requeued(queue, kids), pending[..|pending| - 1] + ChildIds(before, kids))
  {
  }

  ghost function AllPositions(grants: seq<Grant>): set<nat> {
    set i: nat {:trigger grants[i]} | i < |grants|
  }

  lemma Shrinks(all: set<nat>, done: set<nat>, i: nat)
    requires i in all && i !in done
    ensures |all - (done + {i})| < |all - done|
  {
    assert all - (done + {i}) == (all - done) - {i};
  }

  lemma SweepStarts(before: seq<Grant>, t: nat)
    requires t < |before|
    ensures Sweep(before, before, [t], {}, t)
  {
  }

  lemma KidsAre(before: seq<Grant>, children: map<Id, seq<nat>>, i: nat, kids: seq<nat>)
    requires i < |before| && IndexesChildren(before, children) && DistinctLists(children) && kids == ChildrenAt(children, before[i].id)
    ensures Lists(before, i, kids) && forall k :: 0 <= k < |kids| ==> kids[k] < |before|
  {
  }

  lemma SweepEnds(before: seq<Grant>, now: seq<Grant>, done: set<nat>, t: nat)
    requires t < |before| && Sweep(before, now, [], done, t)
    ensures now == RestoreSubtree(before, t)
  {
    hide Descends;
    forall i | 0 <= i < |before|
      ensures now[i] == RestoreSubtree(before, t)[i]
    {
      if Descends(before, i, t) {
        SweptAll(before, done, t, i);
      }
    }
  }
}
