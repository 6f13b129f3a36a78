/** The digest of a snapshot: what its preimage distinguishes and what it does not. */
module SnapshotDigest {
  import opened Basics
  import opened Model
  import opened Sorting
  import opened Encoding
  import opened Identity
  import opened Scopes
  import opened Codec
  import opened DurableStream
  import opened Sha256

  datatype View = View(
    id: ParticipantId, registrationGeneration: U64, fenceGeneration: U64, incarnationFloor: U64, policy: IncarnationPolicy,
    retired: bool, revalidationRequired: bool, hasActive: bool, activeBoot: Id, activeIncarnation: U64, activeBoots: seq<Id>,
    scopes: seq<Scope>, acceptedRegistrations: U64, replayHits: U64)

  datatype GrantView = GrantView(
    id: Id, epoch: U64, participant: ParticipantId, boot: Id, generation: U64, revoked: bool, delegated: bool, scopes: seq<Scope>)

  datatype Snapshot = Snapshot(
    epoch: U64, coordinatorBoot: Id, generation: U64, registrationFloor: U64, fenceFloor: U64,
    participants: seq<View>, fences: seq<FenceRecord>, grants: seq<GrantView>)

  /** FABRIC-EPOCH-SNAPSHOT-V1 */
  const TAG: Bytes :=
    [0x46, 0x41, 0x42, 0x52, 0x49, 0x43, 0x2D, 0x45, 0x50, 0x4F, 0x43, 0x48, 0x2D, 0x53, 0x4E, 0x41, 0x50, 0x53, 0x48, 0x4F, 0x54, 0x2D, 0x56, 0x31]

  // ---- orders ------------------------------------------------------------

  predicate IdBelow(a: Id, b: Id) { a < b }

  predicate ViewBelow(a: View, b: View) { BytesLess(a.id.text, b.id.text) }

  predicate GrantBelow(a: GrantView, b: GrantView) { a.id < b.id }

  /** By participant, then boot, then generation. */
  predicate FenceBelow(a: FenceRecord, b: FenceRecord) {
    if a.participant != b.participant then BytesLess(a.participant.text, b.participant.text)
    else if a.boot != b.boot then a.boot < b.boot
    else a.generation < b.generation
  }

  lemma OrdersAreStrict()
    ensures StrictOrder(IdBelow) && StrictOrder(GrantBelow) && StrictOrder(ViewBelow) && StrictOrder(FenceBelow)
  {
    forall a: Bytes, b: Bytes | BytesLess(a, b)
      ensures a != b && !BytesLess(b, a)
    {
      BytesLessAsymmetric(a, b);
    }
    forall a: Bytes, b: Bytes, c: Bytes | BytesLess(a, b) && BytesLess(b, c)
      ensures BytesLess(a, c)
    {
      BytesLessTransitive(a, b, c);
    }
    hide BytesLess;
  }

  // ---- the preimage ------------------------------------------------------

  predicate ViewFits(v: View) {
    IdFits(v.id) && ScopesFit(v.scopes) && |v.activeBoots| <= MAX_RECORDS
  }

  predicate GrantViewFits(g: GrantView) {
    IdFits(g.participant) && ScopesFit(g.scopes)
  }

  predicate SnapshotFits(s: Snapshot) {
    && |s.participants| <= MAX_RECORDS && (forall v :: v in s.participants ==> ViewFits(v))
    && |s.fences| <= MAX_RECORDS && (forall f :: f in s.fences ==> IdFits(f.participant))
    && |s.grants| <= MAX_RECORDS && (forall g :: g in s.grants ==> GrantViewFits(g))
  }

  function Bit(b: bool): Byte {
    if b then 1 else 0
  }

  /** Neither the flag for an active boot nor the registration and replay counters are written;
      the extra boots are written in order of identifier. */
  function PutView(v: View, tail: Bytes): Bytes
    requires ViewFits(v)
  {
    PutText(v.id.text, PutU64(v.registrationGeneration, PutU64(v.fenceGeneration, PutU64(v.incarnationFloor,
      PutU8(PolicyCode(v.policy), PutU8(Bit(v.retired), PutU8(Bit(v.revalidationRequired), PutId(v.activeBoot,
        PutU64(v.activeIncarnation, PutCounted(Sort(v.activeBoots, IdBelow), PutScopes(v.scopes, tail), PutId))))))))))
  }

  /** The note is not written. */
  function PutFenceView(f: FenceRecord, tail: Bytes): Bytes
    requires IdFits(f.participant)
  {
    PutId(f.boot, PutText(f.participant.text, PutU8(ReasonCode(f.reason), PutU64(f.generation, PutU64(f.epoch,
      PutU64(f.incarnation, tail))))))
  }

  function PutGrantView(g: GrantView, tail: Bytes): Bytes
    requires GrantViewFits(g)
  {
    PutId(g.id, PutU64(g.epoch, PutText(g.participant.text, PutId(g.boot, PutU64(g.generation, PutU8(Bit(g.revoked),
      PutU8(Bit(g.delegated), PutScopes(g.scopes, tail))))))))
  }

  lemma SortedFits(s: Snapshot)
    requires SnapshotFits(s)
    ensures forall v :: v in Sort(s.participants, ViewBelow) ==> ViewFits(v)
    ensures forall f :: f in Sort(s.fences, FenceBelow) ==> IdFits(f.participant)
    ensures forall g :: g in Sort(s.grants, GrantBelow) ==> GrantViewFits(g)
  {
    hide Sort, ViewFits, GrantViewFits, IdFits;
    forall v | v in Sort(s.participants, ViewBelow)
      ensures v in s.participants
    {
      assert v in multiset(Sort(s.participants, ViewBelow));
    }
    forall f | f in Sort(s.fences, FenceBelow)
      ensures f in s.fences
    {
      assert f in multiset(Sort(s.fences, FenceBelow));
    }
    forall g | g in Sort(s.grants, GrantBelow)
      ensures g in s.grants
    {
      assert g in multiset(Sort(s.grants, GrantBelow));
    }
  }

  function PutGrantViews(s: Snapshot): Bytes
    requires SnapshotFits(s)
  {
    SortedFits(s);
    PutCounted(Sort(s.grants, GrantBelow), [], PutGrantView)
  }

  function PutFenceViews(s: Snapshot): Bytes
    requires SnapshotFits(s)
  {
    SortedFits(s);
    PutCounted(Sort(s.fences, FenceBelow), PutGrantViews(s), PutFenceView)
  }

  function PutViews(s: Snapshot): Bytes
    requires SnapshotFits(s)
  {
    SortedFits(s);
    PutCounted(Sort(s.participants, ViewBelow), PutFenceViews(s), PutView)
  }

  function Preimage(s: Snapshot): Bytes
    requires SnapshotFits(s)
  {
    PutText(TAG, PutU64(s.epoch, PutId(s.coordinatorBoot, PutU64(s.generation, PutU64(s.registrationFloor, PutU64(s.fenceFloor,
      PutViews(s)))))))
  }

  // ---- what the preimage keeps of a snapshot -----------------------------

  /** A participant as the digest sees it. */
  function SeenView(v: View): View {
    v.(hasActive := false, activeBoots := Sort(v.activeBoots, IdBelow), acceptedRegistrations := 0, replayHits := 0)
  }

  function SeenFence(f: FenceRecord): FenceRecord {
    f.(note := [])
  }

  function Each<T, U>(xs: seq<T>, f: T -> U): (ys: seq<U>)
    ensures |ys| == |xs| && forall i :: 0 <= i < |xs| ==> ys[i] == f(xs[i])
  {
    seq(|xs|, i requires 0 <= i < |xs| => f(xs[i]))
  }

  /** The content of a snapshot that its digest covers. */
  function Seen(s: Snapshot): Snapshot {
    s.(participants := Each(Sort(s.participants, ViewBelow), SeenView),
       fences := Each(Sort(s.fences, FenceBelow), SeenFence),
       grants := Sort(s.grants, GrantBelow))
  }

  lemma {:induction false} ListsDiffer<T(!new), U(!new)>(xs: seq<T>, ys: seq<T>, t: Bytes, u: Bytes, seen: T -> U, put: (T, Bytes) --> Bytes)
    requires forall x, b: Bytes :: x in xs || x in ys ==> put.requires(x, b)
    requires forall x, y, b: Bytes, c: Bytes :: x in xs && y in ys ==> (put(x, b) == put(y, c) <==> seen(x) == seen(y) && b == c)
    requires |xs| == |ys|
    ensures PutList(xs, t, put) == PutList(ys, u, put) <==> Each(xs, seen) == Each(ys, seen) && t == u
  {
    if xs == [] {
      assert Each(xs, seen) == Each(ys, seen);
    } else {
      var a, b := xs[1..], ys[1..];
      assert xs[0] in xs && ys[0] in ys;
      assert (forall x :: x in a ==> x in xs) && (forall y :: y in b ==> y in ys);
      ListsDiffer(a, b, t, u, seen, put);
      assert Each(xs, seen) == [seen(xs[0])] + Each(a, seen);
      assert Each(ys, seen) == [seen(ys[0])] + Each(b, seen);
    }
  }

  /** Counted lists are equal exactly when what is seen of each element is, and the tails are. */
  lemma CountedDiffer<T(!new), U(!new)>(xs: seq<T>, ys: seq<T>, t: Bytes, u: Bytes, seen: T -> U, put: (T, Bytes) --> Bytes)
    requires forall x, b: Bytes :: x in xs || x in ys ==> put.requires(x, b)
    requires forall x, y, b: Bytes, c: Bytes :: x in xs && y in ys ==> (put(x, b) == put(y, c) <==> seen(x) == seen(y) && b == c)
    requires |xs| <= MAX_RECORDS && |ys| <= MAX_RECORDS
    ensures PutCounted(xs, t, put) == PutCounted(ys, u, put) <==> Each(xs, seen) == Each(ys, seen) && t == u
  {
    hide PutList, Each, PutU32;
    var a, b := PutCounted(xs, t, put), PutCounted(ys, u, put);
    assert GetU32(a).Ok? && GetU32(a).value.value == |xs|;
    assert GetU32(b).Ok? && GetU32(b).value.value == |ys|;
    if |xs| == |ys| {
      ListsDiffer(xs, ys, t, u, seen, put);
      assert GetU32(a).value.rest == PutList(xs, t, put) && GetU32(b).value.rest == PutList(ys, u, put);
    } else {
      assert |Each(xs, seen)| != |Each(ys, seen)|;
    }
  }

  lemma TextsDiffer(a: Bytes, b: Bytes, t: Bytes, u: Bytes)
    requires |a| <= MAX_BYTES && |b| <= MAX_BYTES
    ensures PutText(a, t) == PutText(b, u) <==> a == b && t == u
  {
    hide GetText, PutText;
    assert GetText(PutText(a, t), MAX_BYTES, MAX_BYTES) == Ok(Parsed(a, t));
    assert GetText(PutText(b, u), MAX_BYTES, MAX_BYTES) == Ok(Parsed(b, u));
  }

  lemma ScopeSetsDiffer(a: seq<Scope>, b: seq<Scope>, t: Bytes, u: Bytes)
    requires ScopesFit(a) && ScopesFit(b)
    ensures |a| < 0x1_0000_0000 && |b| < 0x1_0000_0000
    ensures (forall s :: s in a ==> |s.subject| < 0x1_0000_0000) && (forall s :: s in b ==> |s.subject| < 0x1_0000_0000)
    ensures PutScopes(a, t) == PutScopes(b, u) <==> a == b && t == u
  {
    hide ScopesFit, GetScopes, PutScopes;
    ScopesRoundTrip(a, t, MAX_TEXT);
    ScopesRoundTrip(b, u, MAX_TEXT);
    assert GetScopes(PutScopes(a, t), MAX_SCOPES, MAX_TEXT) == Ok(Parsed(a, t));
    assert GetScopes(PutScopes(b, u), MAX_SCOPES, MAX_TEXT) == Ok(Parsed(b, u));
  }

  lemma BootsDiffer(a: seq<Id>, b: seq<Id>, t: Bytes, u: Bytes)
    requires |a| <= MAX_RECORDS && |b| <= MAX_RECORDS
    ensures PutCounted(a, t, PutId) == PutCounted(b, u, PutId) <==> a == b && t == u
  {
    hide GetId, PutId;
    var same := (x: Id) => x;
    forall x: Id, y: Id, c: Bytes, d: Bytes
      ensures PutId(x, c) == PutId(y, d) <==> x == y && c == d
    {
      assert GetId(PutId(x, c)) == Ok(Parsed(x, c)) && GetId(PutId(y, d)) == Ok(Parsed(y, d));
    }
    CountedDiffer(a, b, t, u, same, PutId);
    assert Each(a, same) == a && Each(b, same) == b;
  }

  lemma ViewsDiffer(v: View, w: View, t: Bytes, u: Bytes)
    requires ViewFits(v) && ViewFits(w)
    ensures PutView(v, t) == PutView(w, u) <==> SeenView(v) == SeenView(w) && t == u
  {
    hide GetU64, PutU64, GetU8, PutU8, GetId, PutId, GetText, PutText, PutScopes, ScopesFit, PutCounted, Sort, IsIdentifierText, GetScopes;
    ScopeSetsDiffer(v.scopes, w.scopes, t, u);
    var v1, w1 := PutScopes(v.scopes, t), PutScopes(w.scopes, u);
    BootsDiffer(Sort(v.activeBoots, IdBelow), Sort(w.activeBoots, IdBelow), v1, w1);
    var v2, w2 := PutCounted(Sort(v.activeBoots, IdBelow), v1, PutId), PutCounted(Sort(w.activeBoots, IdBelow), w1, PutId);
    FixedPartsDiffer(v, w, v2, w2);
  }

  /** The fields of a view before its lists. */
  function PutFixed(v: View, tail: Bytes): Bytes
    requires IdFits(v.id)
  {
    PutText(v.id.text, PutU64(v.registrationGeneration, PutU64(v.fenceGeneration, PutU64(v.incarnationFloor,
      PutU8(PolicyCode(v.policy), PutU8(Bit(v.retired), PutU8(Bit(v.revalidationRequired), PutId(v.activeBoot,
        PutU64(v.activeIncarnation, tail)))))))))
  }

  lemma FixedPartsDiffer(v: View, w: View, t: Bytes, u: Bytes)
    requires IdFits(v.id) && IdFits(w.id)
    ensures PutFixed(v, t) == PutFixed(w, u) <==>
            && v.id == w.id && v.registrationGeneration == w.registrationGeneration && v.fenceGeneration == w.fenceGeneration
            && v.incarnationFloor == w.incarnationFloor && v.policy == w.policy && v.retired == w.retired
            && v.revalidationRequired == w.revalidationRequired && v.activeBoot == w.activeBoot
            && v.activeIncarnation == w.activeIncarnation && t == u
  {
    hide GetU64, PutU64, GetU8, PutU8, GetId, PutId, GetText, PutText, IsIdentifierText;
    var v5, w5 := PutId(v.activeBoot, PutU64(v.activeIncarnation, t)), PutId(w.activeBoot, PutU64(w.activeIncarnation, u));
    assert v5 == w5 <==> v.activeBoot == w.activeBoot && v.activeIncarnation == w.activeIncarnation && t == u;
    var v4, w4 := PutU8(PolicyCode(v.policy), PutU8(Bit(v.retired), PutU8(Bit(v.revalidationRequired), v5))),
                  PutU8(PolicyCode(w.policy), PutU8(Bit(w.retired), PutU8(Bit(w.revalidationRequired), w5)));
    assert v4 == w4 <==>
           v.policy == w.policy && v.retired == w.retired && v.revalidationRequired == w.revalidationRequired && v5 == w5;
    var v3, w3 := PutU64(v.registrationGeneration, PutU64(v.fenceGeneration, PutU64(v.incarnationFloor, v4))),
                  PutU64(w.registrationGeneration, PutU64(w.fenceGeneration, PutU64(w.incarnationFloor, w4)));
    assert v3 == w3 <==> v.registrationGeneration == w.registrationGeneration && v.fenceGeneration == w.fenceGeneration
                         && v.incarnationFloor == w.incarnationFloor && v4 == w4;
    assert |v.id.text| <= MAX_BYTES && |w.id.text| <= MAX_BYTES by {
      IdLengths(v.id);
      IdLengths(w.id);
    }
    TextsDiffer(v.id.text, w.id.text, v3, w3);
  }

  lemma IdLengths(id: ParticipantId)
    requires IdFits(id)
    ensures |id.text| <= MAX_IDENTIFIER
  {
  }

  lemma FenceViewsDiffer(f: FenceRecord, g: FenceRecord, t: Bytes, u: Bytes)
    requires IdFits(f.participant) && IdFits(g.participant)
    ensures PutFenceView(f, t) == PutFenceView(g, u) <==> SeenFence(f) == SeenFence(g) && t == u
  {
    hide GetU64, PutU64, GetU8, PutU8, GetId, PutId, GetText, PutText, IdFits;
    IdLengths(f.participant);
    IdLengths(g.participant);
    var f3, g3 := PutU64(f.generation, PutU64(f.epoch, PutU64(f.incarnation, t))), PutU64(g.generation, PutU64(g.epoch, PutU64(g.incarnation, u)));
    assert f3 == g3 <==> f.generation == g.generation && f.epoch == g.epoch && f.incarnation == g.incarnation && t == u;
    var f2, g2 := PutU8(ReasonCode(f.reason), f3), PutU8(ReasonCode(g.reason), g3);
    assert f2 == g2 <==> f.reason == g.reason && f3 == g3;
    TextsDiffer(f.participant.text, g.participant.text, f2, g2);
    assert PutFenceView(f, t) == PutId(f.boot, PutText(f.participant.text, f2));
    assert PutFenceView(g, u) == PutId(g.boot, PutText(g.participant.text, g2));
  }

  lemma GrantViewsDiffer(g: GrantView, h: GrantView, t: Bytes, u: Bytes)
    requires GrantViewFits(g) && GrantViewFits(h)
    ensures PutGrantView(g, t) == PutGrantView(h, u) <==> g == h && t == u
  {
    hide GetU64, PutU64, GetU8, PutU8, GetId, PutId, GetText, PutText, PutScopes, GetScopes, ScopesFit, IdFits;
    IdLengths(g.participant);
    IdLengths(h.participant);
    ScopeSetsDiffer(g.scopes, h.scopes, t, u);
    var g4, h4 := PutScopes(g.scopes, t), PutScopes(h.scopes, u);
    var g3, h3 := PutU64(g.generation, PutU8(Bit(g.revoked), PutU8(Bit(g.delegated), g4))),
                  PutU64(h.generation, PutU8(Bit(h.revoked), PutU8(Bit(h.delegated), h4)));
    assert g3 == h3 <==> g.generation == h.generation && g.revoked == h.revoked && g.delegated == h.delegated && g4 == h4;
    var g2, h2 := PutId(g.boot, g3), PutId(h.boot, h3);
    assert g2 == h2 <==> g.boot == h.boot && g3 == h3;
    TextsDiffer(g.participant.text, h.participant.text, g2, h2);
    assert PutGrantView(g, t) == PutId(g.id, PutU64(g.epoch, PutText(g.participant.text, g2)));
    assert PutGrantView(h, u) == PutId(h.id, PutU64(h.epoch, PutText(h.participant.text, h2)));
  }

  // ---- what the digest distinguishes --------------------------------------

  predicate SameCounters(s: Snapshot, t: Snapshot) {
    && s.epoch == t.epoch && s.coordinatorBoot == t.coordinatorBoot && s.generation == t.generation
    && s.registrationFloor == t.registrationFloor && s.fenceFloor == t.fenceFloor
  }

  lemma GrantPartsDiffer(s: Snapshot, t: Snapshot)
    requires SnapshotFits(s) && SnapshotFits(t)
    ensures PutGrantViews(s) == PutGrantViews(t) <==> Seen(s).grants == Seen(t).grants
  {
    hide PutCounted, PutGrantView, GrantViewFits, Sort, ViewFits;
    SortedFits(s);
    SortedFits(t);
    var xs, ys := Sort(s.grants, GrantBelow), Sort(t.grants, GrantBelow);
    var same := (g: GrantView) => g;
    forall x, y, b: Bytes, c: Bytes | x in xs && y in ys
      ensures PutGrantView(x, b) == PutGrantView(y, c) <==> same(x) == same(y) && b == c
    {
      GrantViewsDiffer(x, y, b, c);
    }
    CountedDiffer(xs, ys, [], [], same, PutGrantView);
    assert Each(xs, same) == xs && Each(ys, same) == ys;
  }

  lemma FencePartsDiffer(s: Snapshot, t: Snapshot)
    requires SnapshotFits(s) && SnapshotFits(t)
    ensures PutFenceViews(s) == PutFenceViews(t) <==> Seen(s).fences == Seen(t).fences && PutGrantViews(s) == PutGrantViews(t)
  {
    hide PutCounted, PutFenceView, PutGrantViews, IdFits, Sort, SeenFence, ViewFits, GrantViewFits;
    SortedFits(s);
    SortedFits(t);
    var xs, ys := Sort(s.fences, FenceBelow), Sort(t.fences, FenceBelow);
    forall x, y, b: Bytes, c: Bytes | x in xs && y in ys
      ensures PutFenceView(x, b) == PutFenceView(y, c) <==> SeenFence(x) == SeenFence(y) && b == c
    {
      FenceViewsDiffer(x, y, b, c);
    }
    CountedDiffer(xs, ys, PutGrantViews(s), PutGrantViews(t), SeenFence, PutFenceView);
  }

  lemma ViewPartsDiffer(s: Snapshot, t: Snapshot)
    requires SnapshotFits(s) && SnapshotFits(t)
    ensures PutViews(s) == PutViews(t) <==> Seen(s).participants == Seen(t).participants && PutFenceViews(s) == PutFenceViews(t)
  {
    hide PutCounted, PutView, PutFenceViews, ViewFits, Sort, SeenView, GrantViewFits;
    SortedFits(s);
    SortedFits(t);
    var xs, ys := Sort(s.participants, ViewBelow), Sort(t.participants, ViewBelow);
    forall x, y, b: Bytes, c: Bytes | x in xs && y in ys
      ensures PutView(x, b) == PutView(y, c) <==> SeenView(x) == SeenView(y) && b == c
    {
      ViewsDiffer(x, y, b, c);
    }
    CountedDiffer(xs, ys, PutFenceViews(s), PutFenceViews(t), SeenView, PutView);
  }

  /** Two snapshots have the same preimage exactly when the digest covers the same content. */
  lemma PreimageIff(s: Snapshot, t: Snapshot)
    requires SnapshotFits(s) && SnapshotFits(t)
    ensures Preimage(s) == Preimage(t) <==> SameCounters(s, t) && Seen(s) == Seen(t)
  {
    hide GetU64, PutU64, GetId, PutId, GetText, PutText, PutViews, PutFenceViews, PutGrantViews, SnapshotFits, Sort, Each;
    ViewPartsDiffer(s, t);
    FencePartsDiffer(s, t);
    GrantPartsDiffer(s, t);
    var a, b := PutU64(s.generation, PutU64(s.registrationFloor, PutU64(s.fenceFloor, PutViews(s)))),
                PutU64(t.generation, PutU64(t.registrationFloor, PutU64(t.fenceFloor, PutViews(t))));
    assert a == b <==> s.generation == t.generation && s.registrationFloor == t.registrationFloor && s.fenceFloor == t.fenceFloor
                       && PutViews(s) == PutViews(t);
    var c, d := PutU64(s.epoch, PutId(s.coordinatorBoot, a)), PutU64(t.epoch, PutId(t.coordinatorBoot, b));
    assert c == d <==> s.epoch == t.epoch && s.coordinatorBoot == t.coordinatorBoot && a == b;
    TextsDiffer(TAG, TAG, c, d);
  }

  // ---- order ---------------------------------------------------------------

  /** Sorting by a key that is seen commutes with looking. */
  lemma {:induction false} SortEach<T(!new)>(xs: seq<T>, seen: T -> T, less: (T, T) -> bool)
    requires forall a, b :: less(seen(a), seen(b)) <==> less(a, b)
    ensures Each(Sort(xs, less), seen) == Sort(Each(xs, seen), less)
  {
    if xs != [] {
      var last := |xs| - 1;
      SortEach(xs[..last], seen, less);
      assert Each(xs, seen)[..last] == Each(xs[..last], seen);
      InsertEach(Sort(xs[..last], less), xs[last], seen, less);
    } else {
      assert Each(xs, seen) == [];
    }
  }

  lemma {:induction false} InsertEach<T(!new)>(xs: seq<T>, x: T, seen: T -> T, less: (T, T) -> bool)
    requires forall a, b :: less(seen(a), seen(b)) <==> less(a, b)
    ensures Each(Insert(xs, x, less), seen) == Insert(Each(xs, seen), seen(x), less)
  {
    if xs == [] {
      assert Each([x], seen) == [seen(x)];
    } else if less(x, xs[0]) {
      assert Each([x] + xs, seen) == [seen(x)] + Each(xs, seen);
    } else {
      InsertEach(xs[1..], x, seen, less);
      EachHead(xs[0], xs[1..], seen);
      EachHead(xs[0], Insert(xs[1..], x, less), seen);
      assert xs == [xs[0]] + xs[1..];
      assert Each(xs, seen)[1..] == Each(xs[1..], seen);
    }
  }

  lemma EachHead<T, U>(x: T, xs: seq<T>, seen: T -> U)
    ensures Each([x] + xs, seen) == [seen(x)] + Each(xs, seen)
  {
  }

  lemma ComparableEach<T(!new)>(xs: seq<T>, seen: T -> T, less: (T, T) -> bool)
    requires Comparable(xs, less) && forall a, b :: less(seen(a), seen(b)) <==> less(a, b)
    ensures Comparable(Each(xs, seen), less)
  {
  }

  /** Sorted lists show the same exactly when the lists show the same elements, in any order. */
  lemma SortedSeenIff<T(!new)>(xs: seq<T>, ys: seq<T>, seen: T -> T, less: (T, T) -> bool)
    requires StrictOrder(less) && Comparable(xs, less) && Comparable(ys, less)
    requires forall a, b :: less(seen(a), seen(b)) <==> less(a, b)
    ensures Each(Sort(xs, less), seen) == Each(Sort(ys, less), seen) <==> multiset(Each(xs, seen)) == multiset(Each(ys, seen))
  {
    hide Sort, Each, Comparable, StrictOrder;
    SortEach(xs, seen, less);
    SortEach(ys, seen, less);
    ComparableEach(xs, seen, less);
    ComparableEach(ys, seen, less);
    if multiset(Each(xs, seen)) == multiset(Each(ys, seen)) {
      SortIgnoresOrder(Each(xs, seen), Each(ys, seen), less);
    }
  }

  predicate KeysDistinct(s: Snapshot) {
    Comparable(s.participants, ViewBelow) && Comparable(s.fences, FenceBelow) && Comparable(s.grants, GrantBelow)
  }

  /** The digest covers content, not presentation. With distinct keys, two snapshots have the same
      preimage exactly when their counters agree and they hold the same participants, fences and
      grants in whatever order, up to fence notes, registration and replay counters, the active
      flag, and the order of extra boots. */
  lemma DigestIgnoresOrder(s: Snapshot, t: Snapshot)
    requires SnapshotFits(s) && SnapshotFits(t) && KeysDistinct(s) && KeysDistinct(t)
    ensures Preimage(s) == Preimage(t) <==>
            && SameCounters(s, t)
            && multiset(Each(s.participants, SeenView)) == multiset(Each(t.participants, SeenView))
            && multiset(Each(s.fences, SeenFence)) == multiset(Each(t.fences, SeenFence))
            && multiset(s.grants) == multiset(t.grants)
  {
    hide Preimage, SnapshotFits, Sort, Each, Comparable, StrictOrder;
    PreimageIff(s, t);
    OrdersAreStrict();
    KeysAreSeen();
    SortedSeenIff(s.participants, t.participants, SeenView, ViewBelow);
    SortedSeenIff(s.fences, t.fences, SeenFence, FenceBelow);
    if multiset(s.grants) == multiset(t.grants) {
      SortIgnoresOrder(s.grants, t.grants, GrantBelow);
    }
    assert Sort(s.grants, GrantBelow) == Sort(t.grants, GrantBelow) ==> multiset(s.grants) == multiset(t.grants);
  }

  lemma KeysAreSeen()
    ensures forall a: View, b: View :: ViewBelow(SeenView(a), SeenView(b)) <==> ViewBelow(a, b)
    ensures forall a: FenceRecord, b: FenceRecord :: FenceBelow(SeenFence(a), SeenFence(b)) <==> FenceBelow(a, b)
  {
    hide BytesLess, Sort;
  }

  // ---- computing it ---------------------------------------------------------

  method WriteView(w: ByteWriter, v: View)
    requires ViewFits(v)
    modifies w
    ensures forall tail: Bytes :: w.buffer + tail == old(w.buffer) + PutView(v, tail)
  {
    hide PutFixed, PutId, PutScopes, ScopesFit, PutCounted, Sort, IdFits;
    WellWrites(v.scopes);
    WriteFixed(w, v);
    WriteBoots(w, Sort(v.activeBoots, IdBelow));
    var ok := WriteScopes(w, v.scopes);
    ViewInParts(v);
  }

  lemma ViewInParts(v: View)
    requires ViewFits(v)
    ensures |v.scopes| < 0x1_0000_0000 && forall s :: s in v.scopes ==> |s.subject| < 0x1_0000_0000
    ensures forall tail: Bytes :: PutView(v, tail) == PutFixed(v, PutCounted(Sort(v.activeBoots, IdBelow), PutScopes(v.scopes, tail), PutId))
  {
    hide Sort, PutScopes, ScopesFit, PutCounted, PutU64, PutU8, PutId, PutText;
    ScopeSetsDiffer(v.scopes, v.scopes, [], []);
  }

  method WriteFixed(w: ByteWriter, v: View)
    requires IdFits(v.id)
    modifies w
    ensures forall tail: Bytes :: w.buffer + tail == old(w.buffer) + PutFixed(v, tail)
  {
    hide PutU64, PutU8, PutId, PutText, IdFits, PolicyCode, Bit;
    IdLengths(v.id);
    var ok := w.Text(v.id.text);
    WriteNumbers(w, v);
  }

  /** What follows the identifier, up to the boots. */
  method WriteNumbers(w: ByteWriter, v: View)
    modifies w
    ensures forall tail: Bytes :: w.buffer + tail ==
              old(w.buffer) + PutU64(v.registrationGeneration, PutU64(v.fenceGeneration, PutU64(v.incarnationFloor,
                PutU8(PolicyCode(v.policy), PutU8(Bit(v.retired), PutU8(Bit(v.revalidationRequired), PutId(v.activeBoot,
                  PutU64(v.activeIncarnation, tail))))))))
  {
    hide PutU64, PutU8, PutId, PolicyCode, Bit;
    w.U64(v.registrationGeneration);
    w.U64(v.fenceGeneration);
    w.U64(v.incarnationFloor);
    w.Byte(PolicyCode(v.policy));
    w.Byte(Bit(v.retired));
    w.Byte(Bit(v.revalidationRequired));
    w.Fixed16(v.activeBoot);
    w.U64(v.activeIncarnation);
  }

  method WriteFenceView(w: ByteWriter, f: FenceRecord)
    requires IdFits(f.participant)
    modifies w
    ensures forall tail: Bytes :: w.buffer + tail == old(w.buffer) + PutFenceView(f, tail)
  {
    hide PutU64, PutU8, PutId, PutText, IdFits, ReasonCode;
    IdLengths(f.participant);
    w.Fixed16(f.boot);
    var ok := w.Text(f.participant.text);
    w.Byte(ReasonCode(f.reason));
    w.U64(f.generation);
    w.U64(f.epoch);
    w.U64(f.incarnation);
  }

  method WriteGrantView(w: ByteWriter, g: GrantView)
    requires GrantViewFits(g)
    modifies w
    ensures forall tail: Bytes :: w.buffer + tail == old(w.buffer) + PutGrantView(g, tail)
  {
    hide PutU64, PutU8, PutId, PutText, PutScopes, ScopesFit, ScopesWrite, IdFits, Bit;
    WellWrites(g.scopes);
    IdLengths(g.participant);
    w.Fixed16(g.id);
    w.U64(g.epoch);
    var ok := w.Text(g.participant.text);
    WriteStanding(w, g);
    var written := WriteScopes(w, g.scopes);
  }

  /** What follows the participant of a grant, up to the scopes. */
  method WriteStanding(w: ByteWriter, g: GrantView)
    modifies w
    ensures forall tail: Bytes :: w.buffer + tail ==
              old(w.buffer) + PutId(g.boot, PutU64(g.generation, PutU8(Bit(g.revoked), PutU8(Bit(g.delegated), tail))))
  {
    hide PutU64, PutU8, PutId, Bit;
    w.Fixed16(g.boot);
    w.U64(g.generation);
    w.Byte(Bit(g.revoked));
    w.Byte(Bit(g.delegated));
  }

  method WriteViews(w: ByteWriter, xs: seq<View>)
    requires |xs| < 0x1_0000_0000 && forall x :: x in xs ==> ViewFits(x)
    modifies w
    ensures forall tail: Bytes :: w.buffer + tail == old(w.buffer) + PutCounted(xs, tail, PutView)
  {
    hide PutU32, PutView, ViewFits, GrantViewFits, IdFits;
    w.U32(|xs|);
    for i := 0 to |xs|
      invariant forall tail: Bytes :: w.buffer + PutList(xs[i..], tail, PutView) == old(w.buffer) + PutCounted(xs, tail, PutView)
    {
      ghost var before := w.buffer;
      WriteView(w, xs[i]);
      forall tail: Bytes
        ensures w.buffer + PutList(xs[i + 1..], tail, PutView) == old(w.buffer) + PutCounted(xs, tail, PutView)
      {
        assert xs[i..][1..] == xs[i + 1..];
        assert before + PutList(xs[i..], tail, PutView) == old(w.buffer) + PutCounted(xs, tail, PutView);
      }
    }
  }

  method WriteFenceViews(w: ByteWriter, xs: seq<FenceRecord>)
    requires |xs| < 0x1_0000_0000 && forall x :: x in xs ==> IdFits(x.participant)
    modifies w
    ensures forall tail: Bytes :: w.buffer + tail == old(w.buffer) + PutCounted(xs, tail, PutFenceView)
  {
    hide PutU32, PutFenceView, ViewFits, GrantViewFits, IdFits;
    w.U32(|xs|);
    for i := 0 to |xs|
      invariant forall tail: Bytes :: w.buffer + PutList(xs[i..], tail, PutFenceView) == old(w.buffer) + PutCounted(xs, tail, PutFenceView)
    {
      ghost var before := w.buffer;
      WriteFenceView(w, xs[i]);
      forall tail: Bytes
        ensures w.buffer + PutList(xs[i + 1..], tail, PutFenceView) == old(w.buffer) + PutCounted(xs, tail, PutFenceView)
      {
        assert xs[i..][1..] == xs[i + 1..];
        assert before + PutList(xs[i..], tail, PutFenceView) == old(w.buffer) + PutCounted(xs, tail, PutFenceView);
      }
    }
  }

  method WriteGrantViews(w: ByteWriter, xs: seq<GrantView>)
    requires |xs| < 0x1_0000_0000 && forall x :: x in xs ==> GrantViewFits(x)
    modifies w
    ensures forall tail: Bytes :: w.buffer + tail == old(w.buffer) + PutCounted(xs, tail, PutGrantView)
  {
    hide PutU32, PutGrantView, ViewFits, GrantViewFits, IdFits;
    w.U32(|xs|);
    for i := 0 to |xs|
      invariant forall tail: Bytes :: w.buffer + PutList(xs[i..], tail, PutGrantView) == old(w.buffer) + PutCounted(xs, tail, PutGrantView)
    {
      ghost var before := w.buffer;
      WriteGrantView(w, xs[i]);
      forall tail: Bytes
        ensures w.buffer + PutList(xs[i + 1..], tail, PutGrantView) == old(w.buffer) + PutCounted(xs, tail, PutGrantView)
      {
        assert xs[i..][1..] == xs[i + 1..];
        assert before + PutList(xs[i..], tail, PutGrantView) == old(w.buffer) + PutCounted(xs, tail, PutGrantView);
      }
    }
  }

  /** The snapshot digest. */
  method ComputeDigest(s: Snapshot) returns (digest: Bytes)
    requires SnapshotFits(s)
    ensures digest == Hash(Preimage(s))
  {
    hide PutU64, PutId, PutText, PutViews, PutFenceViews, PutGrantViews, SnapshotFits, Hash;
    var w := new ByteWriter();
    var ok := w.Text(TAG);
    w.U64(s.epoch);
    w.Fixed16(s.coordinatorBoot);
    w.U64(s.generation);
    w.U64(s.registrationFloor);
    w.U64(s.fenceFloor);
    ghost var front := w.buffer;
    WriteSnapshotLists(w, s);
    assert [] + Preimage(s) == Preimage(s);
    assert front + PutViews(s) == Preimage(s);
    digest := HashOf(w.buffer);
  }

  method WriteSnapshotLists(w: ByteWriter, s: Snapshot)
    requires SnapshotFits(s)
    modifies w
    ensures w.buffer == old(w.buffer) + PutViews(s)
  {
    hide PutCounted, PutView, PutFenceViews, Sort, ViewFits, GrantViewFits, IdFits;
    SortedFits(s);
    WriteViews(w, Sort(s.participants, ViewBelow));
    WriteFencesAndGrants(w, s);
  }

  method WriteFencesAndGrants(w: ByteWriter, s: Snapshot)
    requires SnapshotFits(s)
    modifies w
    ensures w.buffer == old(w.buffer) + PutFenceViews(s)
  {
    hide PutCounted, PutFenceView, PutGrantView, Sort, ViewFits, GrantViewFits, IdFits;
    SortedFits(s);
    WriteFenceViews(w, Sort(s.fences, FenceBelow));
    WriteGrantViews(w, Sort(s.grants, GrantBelow));
    assert w.buffer + [] == w.buffer;
  }
}
