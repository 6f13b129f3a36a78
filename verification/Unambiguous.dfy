/** No encoding is ever misread: whatever state was encoded, well formed or not, decoding its bytes
    gives that state or an error, never another state. */
module Unambiguous {
  import opened Basics
  import opened Model
  import opened Encoding
  import opened Identity
  import opened Scopes
  import opened Codec
  import opened DurableCodec

  const FOUR_GIB: nat := 0x1_0000_0000

  /** Reading gave this value and this rest, or an error. */
  ghost predicate ReadsAs<T>(r: Read<T>, x: T, rest: Bytes) {
    r.Ok? ==> r == Ok(Parsed(x, rest))
  }

  /** None of these values is misread from an encoding whose length can be represented. */
  ghost predicate Honest<T(!new)>(xs: seq<T>, get: Bytes -> Read<T>, put: (T, Bytes) -> Bytes) {
    forall x, t: Bytes :: x in xs ==> |put(x, t)| > |t| && (|put(x, t)| < FOUR_GIB ==> ReadsAs(get(put(x, t)), x, t))
  }

  lemma {:induction false} HonestList<T(!new)>(xs: seq<T>, tail: Bytes, get: Bytes -> Read<T>, put: (T, Bytes) -> Bytes)
    requires Honest(xs, get, put)
    ensures |PutList(xs, tail, put)| >= |xs| + |tail|
    ensures |PutList(xs, tail, put)| < FOUR_GIB ==> ReadsAs(GetList(|xs|, PutList(xs, tail, put), get), xs, tail)
  {
    if xs != [] {
      var rest := xs[1..];
      assert xs == [xs[0]] + rest && xs[0] in xs;
      assert Honest(rest, get, put);
      HonestList(rest, tail, get, put);
    }
  }

  lemma HonestCounted<T(!new)>(xs: seq<T>, tail: Bytes, ceiling: nat, unit: nat, get: Bytes -> Read<T>, put: (T, Bytes) -> Bytes)
    requires Honest(xs, get, put)
    ensures var b := PutCounted(xs, tail, put);
            |b| > |tail| && (|b| < FOUR_GIB ==> ReadsAs(GetCounted(b, ceiling, unit, get), xs, tail))
  {
    hide GetList, PutList, Honest, PutU32, GetU32, Low32;
    HonestList(xs, tail, get, put);
  }

  lemma HonestText(text: Bytes, tail: Bytes, m: nat, s: nat)
    ensures |PutText(text, tail)| < FOUR_GIB ==> ReadsAs(GetText(PutText(text, tail), m, s), text, tail)
  {
    hide PutU32, GetU32;
    assert (text + tail)[..|text|] == text && (text + tail)[|text|..] == tail;
  }

  // ---- scopes ------------------------------------------------------------

  lemma HonestScope(s: Scope, tail: Bytes, maxString: nat)
    ensures |PutScope(s, tail)| > |tail|
    ensures |PutScope(s, tail)| < FOUR_GIB ==> ReadsAs(GetScope(PutScope(s, tail), maxString), s, tail)
  {
    hide GetText, PutText, IsIdentifierText;
    HonestText(s.subject, tail, MAX_SUBJECT, maxString);
    KindCodeRead(s.kind);
  }

  lemma KindCodeRead(kind: ScopeKind)
    ensures KindFromCode(KindCode(kind)) == Some(kind)
  {
  }

  lemma {:induction false} HonestScopesAfter(scopes: seq<Scope>, previous: Option<Scope>, tail: Bytes, maxString: nat)
    ensures |PutScopeList(scopes, tail)| >= |scopes| + |tail|
    ensures |PutScopeList(scopes, tail)| < FOUR_GIB ==>
              ReadsAs(GetScopesAfter(|scopes|, previous, PutScopeList(scopes, tail), maxString), scopes, tail)
  {
    hide GetScope, PutScope, ScopeLess;
    if scopes != [] {
      HonestScope(scopes[0], PutScopeList(scopes[1..], tail), maxString);
      HonestScopesAfter(scopes[1..], Some(scopes[0]), tail, maxString);
      assert scopes == [scopes[0]] + scopes[1..];
    }
  }

  lemma HonestScopes(scopes: seq<Scope>, tail: Bytes)
    ensures |PutScopes(scopes, tail)| > |tail|
    ensures |PutScopes(scopes, tail)| < FOUR_GIB ==> ReadsAs(GetScopes(PutScopes(scopes, tail), MAX_SCOPES, MAX_TEXT), scopes, tail)
  {
    hide GetScopesAfter, PutScopeList, PutU32, GetU32, Low32;
    HonestScopesAfter(scopes, None, tail, MAX_TEXT);
  }

  // ---- records -----------------------------------------------------------

  lemma FixedHonest(extras: seq<ActiveIncarnation>, boots: seq<Id>, attempts: seq<AttemptRecord>)
    ensures Honest(extras, GetIncarnation, PutIncarnation) && Honest(boots, GetId, PutId) && Honest(attempts, GetAttempt, PutAttempt)
  {
    hide GetIncarnation, PutIncarnation, GetId, PutId, GetAttempt, PutAttempt;
  }

  lemma HonestHead(h: Head, tail: Bytes)
    ensures |PutHead(h, tail)| > |tail|
    ensures |PutHead(h, tail)| < FOUR_GIB ==> ReadsAs(GetHead(PutHead(h, tail)), h, tail)
  {
    hide GetId, PutId, GetU64, PutU64, GetText, PutText, GetU8, PutU8, IsIdentifierText, IdFits;
    var numbers := PutU64(h.registrationGeneration, PutU64(h.fenceGeneration, PutU64(h.incarnationFloor,
      PutU8(PolicyCode(h.policy), PutU8(FlagsCode(h.flags), PutId(h.activeBoot,
        PutU64(h.activeIncarnation, PutU64(h.nextIncarnation, tail))))))));
    HonestText(h.id.text, numbers, MAX_IDENTIFIER, MAX_TEXT);
  }

  lemma HonestParticipant(p: Participant, tail: Bytes)
    ensures |PutParticipant(p, tail)| > |tail|
    ensures |PutParticipant(p, tail)| < FOUR_GIB ==> ReadsAs(GetParticipant(PutParticipant(p, tail)), p, tail)
  {
    hide GetU64, PutU64, GetCounted, PutCounted, GetScopes, PutScopes, GetHead, PutHead, GetAttempt, PutAttempt, GetIncarnation, PutIncarnation, GetId, PutId;
    FixedHonest(p.extras, p.fencedBoots, p.idempotency);
    var attempts := PutCounted(p.idempotency, tail, PutAttempt);
    HonestCounted(p.idempotency, tail, MAX_RECORDS, ATTEMPT_SIZE, GetAttempt, PutAttempt);
    var fenced := PutCounted(p.fencedBoots, attempts, PutId);
    HonestCounted(p.fencedBoots, attempts, MAX_RECORDS, 16, GetId, PutId);
    var counters := PutU64(p.acceptedRegistrations, PutU64(p.replayHits, fenced));
    HonestScopes(p.scopes, counters);
    var scopes := PutScopes(p.scopes, counters);
    HonestCounted(p.extras, scopes, MAX_RECORDS, 32, GetIncarnation, PutIncarnation);
    HonestHead(HeadOf(p), PutCounted(p.extras, scopes, PutIncarnation));
  }

  lemma HonestFence(f: FenceRecord, tail: Bytes)
    ensures |PutFence(f, tail)| > |tail|
    ensures |PutFence(f, tail)| < FOUR_GIB ==> ReadsAs(GetFence(PutFence(f, tail)), f, tail)
  {
    hide GetId, PutId, GetU64, PutU64, GetText, PutText, GetU8, PutU8, IsIdentifierText, IsBoundedText, FenceFits;
    var note := PutText(f.note, tail);
    HonestText(f.note, tail, MAX_TEXT, MAX_TEXT);
    HonestText(f.participant.text, PutU8(ReasonCode(f.reason), PutU64(f.generation, PutU64(f.epoch, PutU64(f.incarnation, note)))),
               MAX_IDENTIFIER, MAX_TEXT);
  }

  lemma HonestGrantTail(g: Grant, tail: Bytes)
    ensures |PutGrantTail(g, tail)| > |tail|
    ensures |PutGrantTail(g, tail)| < FOUR_GIB ==>
              ReadsAs(GetGrantTail(PutGrantTail(g, tail)), (g.generation, g.parent, g.delegatorBoot, g.revoked, g.revokedAtEpoch, g.provenance), tail)
  {
    hide GetId, PutId, GetU64, PutU64, GetText, PutText, GetU8, PutU8, IsBoundedText, TextFits;
    HonestText(g.provenance, tail, MAX_TEXT, MAX_TEXT);
  }

  lemma HonestGrant(g: Grant, tail: Bytes)
    ensures |PutGrant(g, tail)| > |tail|
    ensures |PutGrant(g, tail)| < FOUR_GIB ==> ReadsAs(GetGrant(PutGrant(g, tail)), g, tail)
  {
    hide GetScopes, PutScopes, GetGrantTail, PutGrantTail, GetId, PutId, GetU64, PutU64, GetText, PutText, IsIdentifierText;
    HonestGrantTail(g, tail);
    var scopes := PutScopes(g.scopes, PutGrantTail(g, tail));
    HonestScopes(g.scopes, PutGrantTail(g, tail));
    HonestText(g.participant.text, PutId(g.boot, PutU64(g.incarnation, scopes)), MAX_IDENTIFIER, MAX_TEXT);
  }

  lemma HonestTransition(t: Transition, tail: Bytes)
    ensures |PutTransition(t, tail)| > |tail|
    ensures |PutTransition(t, tail)| < FOUR_GIB ==> ReadsAs(GetTransition(PutTransition(t, tail)), t, tail)
  {
    hide GetId, PutId, GetU64, PutU64, GetText, PutText, GetU8, PutU8, IsBoundedText, TransitionFits;
    HonestText(t.provenance, tail, MAX_TEXT, MAX_TEXT);
  }

  lemma RecordsHonest(d: DurableState)
    ensures Honest(d.participants, GetParticipant, PutParticipant) && Honest(d.fences, GetFence, PutFence)
    ensures Honest(d.grants, GetGrant, PutGrant) && Honest(d.transitions, GetTransition, PutTransition)
  {
    hide GetParticipant, PutParticipant, GetFence, PutFence, GetGrant, PutGrant, GetTransition, PutTransition, ReadsAs;
    forall p, t
      ensures |PutParticipant(p, t)| > |t| && (|PutParticipant(p, t)| < FOUR_GIB ==> ReadsAs(GetParticipant(PutParticipant(p, t)), p, t))
    {
      HonestParticipant(p, t);
    }
    forall f, t
      ensures |PutFence(f, t)| > |t| && (|PutFence(f, t)| < FOUR_GIB ==> ReadsAs(GetFence(PutFence(f, t)), f, t))
    {
      HonestFence(f, t);
    }
    forall g, t
      ensures |PutGrant(g, t)| > |t| && (|PutGrant(g, t)| < FOUR_GIB ==> ReadsAs(GetGrant(PutGrant(g, t)), g, t))
    {
      HonestGrant(g, t);
    }
    forall x, t
      ensures |PutTransition(x, t)| > |t| && (|PutTransition(x, t)| < FOUR_GIB ==> ReadsAs(GetTransition(PutTransition(x, t)), x, t))
    {
      HonestTransition(x, t);
    }
  }

  // ---- the payload -------------------------------------------------------

  /** Whatever state was encoded, its payload decodes to that state or not at all. */
  lemma NeverMisread(d: DurableState)
    requires |EncodePayload(d)| < FOUR_GIB
    ensures var r := DecodePayload(EncodePayload(d)); r.Ok? ==> r.value == d
  {
    hide GetCounters, PutCounters, GetCounted, PutCounted, GetParticipant, PutParticipant, GetFence, PutFence, GetGrant, PutGrant, GetTransition, PutTransition, GetAttempt, PutAttempt, Honest;
    RecordsHonest(d);
    FixedHonest([], [], d.control);
    CountersGrow(CountersOf(d), PutParticipants(d));
    HonestCounted(d.participants, PutFences(d), MAX_RECORDS, 32, GetParticipant, PutParticipant);
    HonestCounted(d.fences, PutGrants(d), MAX_RECORDS, 49, GetFence, PutFence);
    HonestCounted(d.grants, PutTransitions(d), MAX_RECORDS, 89, GetGrant, PutGrant);
    HonestCounted(d.transitions, PutControl(d), MAX_RECORDS, TRANSITION_DEMAND, GetTransition, PutTransition);
    HonestCounted(d.control, [], MAX_RECORDS, ATTEMPT_SIZE, GetAttempt, PutAttempt);
  }

  lemma CountersGrow(c: Counters, tail: Bytes)
    ensures |PutCounters(c, tail)| > |tail|
  {
    hide GetId, PutId, GetU64, PutU64, GetCounters;
  }
}
