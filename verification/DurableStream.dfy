/** Writing a durable payload field by field, and reading it back: the loops of the encoder and
    the decoder, each proved to follow the format. */
module DurableStream {
  import opened Basics
  import opened Model
  import opened Encoding
  import opened Identity
  import opened Scopes
  import opened Codec
  import opened DurableCodec

  // ---- writing -----------------------------------------------------------

  method WriteAttempt(w: ByteWriter, r: AttemptRecord)
    modifies w
    ensures forall tail: Bytes :: w.buffer + tail == old(w.buffer) + PutAttempt(r, tail)
  {
    hide PutId, PutU8, PutDigest, PutU16, PutU64, GetAttempt;
    w.Fixed16(r.attempt);
    w.Byte(OperationCode(r.operation));
    w.Fixed32(r.semantic);
    w.U16(r.outcome);
    w.U64(r.auxiliary);
    w.U64(r.auxiliaryHigh);
    w.Fixed16(r.auxiliaryId);
  }

  method WriteIncarnation(w: ByteWriter, a: ActiveIncarnation)
    modifies w
    ensures forall tail: Bytes :: w.buffer + tail == old(w.buffer) + PutIncarnation(a, tail)
  {
    hide PutId, PutU64, GetIncarnation;
    w.Fixed16(a.boot);
    w.U64(a.sequence);
    w.U64(a.registeredAt);
  }

  method WriteAttempts(w: ByteWriter, xs: seq<AttemptRecord>)
    modifies w
    ensures forall tail: Bytes :: w.buffer + tail == old(w.buffer) + PutCounted(xs, tail, PutAttempt)
  {
    hide PutU32, PutAttempt, GetAttempt;
    w.U32(Low32(|xs|));
    for i := 0 to |xs|
      invariant forall tail: Bytes :: w.buffer + PutList(xs[i..], tail, PutAttempt) == old(w.buffer) + PutCounted(xs, tail, PutAttempt)
    {
      ghost var before := w.buffer;
      WriteAttempt(w, xs[i]);
      forall tail: Bytes
        ensures w.buffer + PutList(xs[i + 1..], tail, PutAttempt) == old(w.buffer) + PutCounted(xs, tail, PutAttempt)
      {
        assert xs[i..][1..] == xs[i + 1..];
        assert before + PutList(xs[i..], tail, PutAttempt) == old(w.buffer) + PutCounted(xs, tail, PutAttempt);
      }
    }
  }

  method WriteIncarnations(w: ByteWriter, xs: seq<ActiveIncarnation>)
    modifies w
    ensures forall tail: Bytes :: w.buffer + tail == old(w.buffer) + PutCounted(xs, tail, PutIncarnation)
  {
    hide PutU32, PutIncarnation, GetIncarnation;
    w.U32(Low32(|xs|));
    for i := 0 to |xs|
      invariant forall tail: Bytes :: w.buffer + PutList(xs[i..], tail, PutIncarnation) == old(w.buffer) + PutCounted(xs, tail, PutIncarnation)
    {
      ghost var before := w.buffer;
      WriteIncarnation(w, xs[i]);
      forall tail: Bytes
        ensures w.buffer + PutList(xs[i + 1..], tail, PutIncarnation) == old(w.buffer) + PutCounted(xs, tail, PutIncarnation)
      {
        assert xs[i..][1..] == xs[i + 1..];
        assert before + PutList(xs[i..], tail, PutIncarnation) == old(w.buffer) + PutCounted(xs, tail, PutIncarnation);
      }
    }
  }

  method WriteBoots(w: ByteWriter, xs: seq<Id>)
    modifies w
    ensures forall tail: Bytes :: w.buffer + tail == old(w.buffer) + PutCounted(xs, tail, PutId)
  {
    hide PutU32, PutId, GetId;
    w.U32(Low32(|xs|));
    for i := 0 to |xs|
      invariant forall tail: Bytes :: w.buffer + PutList(xs[i..], tail, PutId) == old(w.buffer) + PutCounted(xs, tail, PutId)
    {
      ghost var before := w.buffer;
      w.Fixed16(xs[i]);
      forall tail: Bytes
        ensures w.buffer + PutList(xs[i + 1..], tail, PutId) == old(w.buffer) + PutCounted(xs, tail, PutId)
      {
        assert xs[i..][1..] == xs[i + 1..];
        assert before + PutList(xs[i..], tail, PutId) == old(w.buffer) + PutCounted(xs, tail, PutId);
      }
    }
  }

  method WriteScopes(w: ByteWriter, scopes: seq<Scope>) returns (ok: bool)
    modifies w
    ensures ok <==> ScopesWrite(scopes)
    ensures ok ==> forall tail: Bytes :: w.buffer + tail == old(w.buffer) + PutScopes(scopes, tail)
  {
    hide PutU32, PutU8, PutText, KindCode;
    w.U32(Low32(|scopes|));
    for i := 0 to |scopes|
      invariant forall k :: 0 <= k < i ==> Writes(scopes[k].subject)
      invariant forall tail: Bytes :: w.buffer + PutScopeList(scopes[i..], tail) == old(w.buffer) + PutScopes(scopes, tail)
    {
      ghost var before := w.buffer;
      w.Byte(KindCode(scopes[i].kind));
      ok := w.Text(scopes[i].subject);
      if !ok {
        assert !Writes(scopes[i].subject);
        return;
      }
      forall tail: Bytes
        ensures w.buffer + PutScopeList(scopes[i + 1..], tail) == old(w.buffer) + PutScopes(scopes, tail)
      {
        assert scopes[i..][1..] == scopes[i + 1..];
        assert before + PutScopeList(scopes[i..], tail) == old(w.buffer) + PutScopes(scopes, tail);
      }
    }
    ok := true;
  }

  method WriteHead(w: ByteWriter, h: Head) returns (ok: bool)
    modifies w
    ensures ok <==> Writes(h.id.text)
    ensures ok ==> forall tail: Bytes :: w.buffer + tail == old(w.buffer) + PutHead(h, tail)
  {
    hide PutId, PutU8, PutU64, PutText, GetHead, FlagsCode;
    ok := w.Text(h.id.text);
    if !ok {
      return;
    }
    w.U64(h.registrationGeneration);
    w.U64(h.fenceGeneration);
    w.U64(h.incarnationFloor);
    w.Byte(PolicyCode(h.policy));
    var flags := 0;
    if h.flags.first {
      flags := flags + 1;
    }
    if h.flags.second {
      flags := flags + 2;
    }
    if h.flags.third {
      flags := flags + 4;
    }
    FlagsAre(h.flags, flags);
    w.Byte(flags);
    w.Fixed16(h.activeBoot);
    w.U64(h.activeIncarnation);
    w.U64(h.nextIncarnation);
  }

  lemma FlagsAre(f: Flags, code: Byte)
    requires code == (if f.first then 1 else 0) + (if f.second then 2 else 0) + (if f.third then 4 else 0)
    ensures code == FlagsCode(f)
  {
  }

  method WriteParticipant(w: ByteWriter, p: Participant) returns (ok: bool)
    modifies w
    ensures ok <==> ParticipantWrites(p)
    ensures ok ==> forall tail: Bytes :: w.buffer + tail == old(w.buffer) + PutParticipant(p, tail)
  {
    hide PutHead, PutU64, PutScopes, PutCounted, ScopesWrite, GetAttempt, PutAttempt, GetIncarnation, PutIncarnation, PutId;
    ok := WriteHead(w, HeadOf(p));
    if !ok {
      return;
    }
    WriteIncarnations(w, p.extras);
    ok := WriteScopes(w, p.scopes);
    if !ok {
      return;
    }
    w.U64(p.acceptedRegistrations);
    w.U64(p.replayHits);
    WriteBoots(w, p.fencedBoots);
    WriteAttempts(w, p.idempotency);
  }

  method WriteFence(w: ByteWriter, f: FenceRecord) returns (ok: bool)
    modifies w
    ensures ok <==> FenceWrites(f)
    ensures ok ==> forall tail: Bytes :: w.buffer + tail == old(w.buffer) + PutFence(f, tail)
  {
    hide PutId, PutU8, PutU64, PutText, GetFence;
    w.Fixed16(f.boot);
    ok := w.Text(f.participant.text);
    if !ok {
      return;
    }
    w.Byte(ReasonCode(f.reason));
    w.U64(f.generation);
    w.U64(f.epoch);
    w.U64(f.incarnation);
    ok := w.Text(f.note);
  }

  method WriteGrantTail(w: ByteWriter, g: Grant) returns (ok: bool)
    modifies w
    ensures ok <==> Writes(g.provenance)
    ensures ok ==> forall tail: Bytes :: w.buffer + tail == old(w.buffer) + PutGrantTail(g, tail)
  {
    hide PutId, PutU8, PutU64, PutText, GetGrantTail, FlagsCode;
    w.U64(g.generation);
    var flags := 0;
    if g.parent.Some? {
      flags := flags + 1;
    }
    if g.delegatorBoot.Some? {
      flags := flags + 2;
    }
    if g.revoked {
      flags := flags + 4;
    }
    FlagsAre(Flags(g.parent.Some?, g.delegatorBoot.Some?, g.revoked), flags);
    w.Byte(flags);
    w.Fixed16(OrNil(g.parent));
    w.Fixed16(OrNil(g.delegatorBoot));
    w.U64(g.revokedAtEpoch);
    ok := w.Text(g.provenance);
  }

  method WriteGrant(w: ByteWriter, g: Grant) returns (ok: bool)
    modifies w
    ensures ok <==> GrantWrites(g)
    ensures ok ==> forall tail: Bytes :: w.buffer + tail == old(w.buffer) + PutGrant(g, tail)
  {
    hide PutId, PutU64, PutText, PutScopes, PutGrantTail, ScopesWrite;
    w.Fixed16(g.id);
    w.U64(g.epoch);
    ok := w.Text(g.participant.text);
    if !ok {
      return;
    }
    w.Fixed16(g.boot);
    w.U64(g.incarnation);
    ok := WriteScopes(w, g.scopes);
    if !ok {
      return;
    }
    ok := WriteGrantTail(w, g);
  }

  method WriteTransition(w: ByteWriter, t: Transition) returns (ok: bool)
    modifies w
    ensures ok <==> TransitionWrites(t)
    ensures ok ==> forall tail: Bytes :: w.buffer + tail == old(w.buffer) + PutTransition(t, tail)
  {
    hide PutId, PutU8, PutU64, PutText, GetTransition;
    w.Fixed16(t.id);
    w.U64(t.fromEpoch);
    w.U64(t.toEpoch);
    w.Byte(CauseCode(t.cause));
    w.Fixed16(t.coordinatorBoot);
    w.U64(t.generation);
    ok := w.Text(t.provenance);
  }

  method WriteParticipants(w: ByteWriter, xs: seq<Participant>) returns (ok: bool)
    modifies w
    ensures ok <==> forall x :: x in xs ==> ParticipantWrites(x)
    ensures ok ==> forall tail: Bytes :: w.buffer + tail == old(w.buffer) + PutCounted(xs, tail, PutParticipant)
  {
    hide PutU32, PutParticipant, ParticipantWrites;
    w.U32(Low32(|xs|));
    for i := 0 to |xs|
      invariant forall k :: 0 <= k < i ==> ParticipantWrites(xs[k])
      invariant forall tail: Bytes :: w.buffer + PutList(xs[i..], tail, PutParticipant) == old(w.buffer) + PutCounted(xs, tail, PutParticipant)
    {
      ghost var before := w.buffer;
      ok := WriteParticipant(w, xs[i]);
      if !ok {
        assert xs[i] in xs;
        return;
      }
      forall tail: Bytes
        ensures w.buffer + PutList(xs[i + 1..], tail, PutParticipant) == old(w.buffer) + PutCounted(xs, tail, PutParticipant)
      {
        assert xs[i..][1..] == xs[i + 1..];
        assert before + PutList(xs[i..], tail, PutParticipant) == old(w.buffer) + PutCounted(xs, tail, PutParticipant);
      }
    }
    ok := true;
  }

  method WriteFences(w: ByteWriter, xs: seq<FenceRecord>) returns (ok: bool)
    modifies w
    ensures ok <==> forall x :: x in xs ==> FenceWrites(x)
    ensures ok ==> forall tail: Bytes :: w.buffer + tail == old(w.buffer) + PutCounted(xs, tail, PutFence)
  {
    hide PutU32, PutFence, FenceWrites;
    w.U32(Low32(|xs|));
    for i := 0 to |xs|
      invariant forall k :: 0 <= k < i ==> FenceWrites(xs[k])
      invariant forall tail: Bytes :: w.buffer + PutList(xs[i..], tail, PutFence) == old(w.buffer) + PutCounted(xs, tail, PutFence)
    {
      ghost var before := w.buffer;
      ok := WriteFence(w, xs[i]);
      if !ok {
        assert xs[i] in xs;
        return;
      }
      forall tail: Bytes
        ensures w.buffer + PutList(xs[i + 1..], tail, PutFence) == old(w.buffer) + PutCounted(xs, tail, PutFence)
      {
        assert xs[i..][1..] == xs[i + 1..];
        assert before + PutList(xs[i..], tail, PutFence) == old(w.buffer) + PutCounted(xs, tail, PutFence);
      }
    }
    ok := true;
  }

  method WriteGrants(w: ByteWriter, xs: seq<Grant>) returns (ok: bool)
    modifies w
    ensures ok <==> forall x :: x in xs ==> GrantWrites(x)
    ensures ok ==> forall tail: Bytes :: w.buffer + tail == old(w.buffer) + PutCounted(xs, tail, PutGrant)
  {
    hide PutU32, PutGrant, GrantWrites;
    w.U32(Low32(|xs|));
    for i := 0 to |xs|
      invariant forall k :: 0 <= k < i ==> GrantWrites(xs[k])
      invariant forall tail: Bytes :: w.buffer + PutList(xs[i..], tail, PutGrant) == old(w.buffer) + PutCounted(xs, tail, PutGrant)
    {
      ghost var before := w.buffer;
      ok := WriteGrant(w, xs[i]);
      if !ok {
        assert xs[i] in xs;
        return;
      }
      forall tail: Bytes
        ensures w.buffer + PutList(xs[i + 1..], tail, PutGrant) == old(w.buffer) + PutCounted(xs, tail, PutGrant)
      {
        assert xs[i..][1..] == xs[i + 1..];
        assert before + PutList(xs[i..], tail, PutGrant) == old(w.buffer) + PutCounted(xs, tail, PutGrant);
      }
    }
    ok := true;
  }

  method WriteTransitions(w: ByteWriter, xs: seq<Transition>) returns (ok: bool)
    modifies w
    ensures ok <==> forall x :: x in xs ==> TransitionWrites(x)
    ensures ok ==> forall tail: Bytes :: w.buffer + tail == old(w.buffer) + PutCounted(xs, tail, PutTransition)
  {
    hide PutU32, PutTransition, TransitionWrites;
    w.U32(Low32(|xs|));
    for i := 0 to |xs|
      invariant forall k :: 0 <= k < i ==> TransitionWrites(xs[k])
      invariant forall tail: Bytes :: w.buffer + PutList(xs[i..], tail, PutTransition) == old(w.buffer) + PutCounted(xs, tail, PutTransition)
    {
      ghost var before := w.buffer;
      ok := WriteTransition(w, xs[i]);
      if !ok {
        assert xs[i] in xs;
        return;
      }
      forall tail: Bytes
        ensures w.buffer + PutList(xs[i + 1..], tail, PutTransition) == old(w.buffer) + PutCounted(xs, tail, PutTransition)
      {
        assert xs[i..][1..] == xs[i + 1..];
        assert before + PutList(xs[i..], tail, PutTransition) == old(w.buffer) + PutCounted(xs, tail, PutTransition);
      }
    }
    ok := true;
  }

  /** The encoder of a durable payload: it refuses a state only for a text too long to be written. */
  method EncodeDurable(d: DurableState) returns (r: Result<Bytes, CodecError>)
    ensures r == EncodedPayload(d)
  {
    hide PutCounters, PutParticipants, DurableWrites;
    var w := new ByteWriter();
    WriteCounters(w, CountersOf(d));
    ghost var counters := w.buffer;
    var ok := WriteFromParticipants(w, d);
    if !ok {
      return Err(OverLimit);
    }
    assert counters + PutParticipants(d) == [] + EncodePayload(d);
    assert w.buffer == EncodePayload(d);
    return Ok(w.buffer);
  }

  method WriteCounters(w: ByteWriter, c: Counters)
    modifies w
    ensures forall tail: Bytes :: w.buffer + tail == old(w.buffer) + PutCounters(c, tail)
  {
    hide PutId, PutU64, GetCounters;
    w.U64(c.epoch);
    w.Fixed16(c.coordinatorBoot);
    w.U64(c.generation);
    w.U64(c.registrationFloor);
    w.U64(c.fenceFloor);
  }

  method WriteFromTransitions(w: ByteWriter, d: DurableState) returns (ok: bool)
    modifies w
    ensures ok <==> forall t :: t in d.transitions ==> TransitionWrites(t)
    ensures ok ==> w.buffer == old(w.buffer) + PutTransitions(d)
  {
    hide PutCounted, TransitionWrites, PutTransition, PutAttempt;
    ok := WriteTransitions(w, d.transitions);
    if ok {
      WriteAttempts(w, d.control);
      assert w.buffer + [] == w.buffer;
    }
  }

  method WriteFromGrants(w: ByteWriter, d: DurableState) returns (ok: bool)
    modifies w
    ensures ok <==> (forall g :: g in d.grants ==> GrantWrites(g)) && (forall t :: t in d.transitions ==> TransitionWrites(t))
    ensures ok ==> w.buffer == old(w.buffer) + PutGrants(d)
  {
    hide PutCounted, GrantWrites, TransitionWrites, PutGrant, PutTransitions;
    ok := WriteGrants(w, d.grants);
    if ok {
      ok := WriteFromTransitions(w, d);
    }
  }

  /** Participants, fences, grants, transitions and control attempts, each behind its count. */
  method WriteFromParticipants(w: ByteWriter, d: DurableState) returns (ok: bool)
    modifies w
    ensures ok <==> DurableWrites(d)
    ensures ok ==> w.buffer == old(w.buffer) + PutParticipants(d)
  {
    hide PutCounted, ParticipantWrites, FenceWrites, GrantWrites, TransitionWrites, PutParticipant, PutFence, PutGrants;
    ok := WriteParticipants(w, d.participants);
    if !ok {
      return;
    }
    ok := WriteFences(w, d.fences);
    if ok {
      ok := WriteFromGrants(w, d);
    }
  }

  // ---- reading -----------------------------------------------------------

  /** Elements already read, before the rest of a list. */
  function Prepend<T>(xs: seq<T>, r: Read<seq<T>>): Read<seq<T>> {
    match r
    case Ok(p) => Ok(Parsed(xs + p.value, p.rest))
    case Err(e) => Err(e)
  }

  lemma PrependNothing<T>(r: Read<seq<T>>)
    ensures Prepend([], r) == r
  {
    if r.Ok? {
      assert [] + r.value.value == r.value.value;
    }
  }

  lemma PrependToNothing<T>(xs: seq<T>, b: Bytes)
    ensures Prepend(xs, Ok(Parsed([], b))) == Ok(Parsed(xs, b))
  {
    assert xs + [] == xs;
  }

  lemma ListStep<T>(xs: seq<T>, n: nat, b: Bytes, get: Bytes -> Read<T>)
    requires n > 0
    ensures get(b).Ok? ==>
              Prepend(xs, GetList(n, b, get)) == Prepend(xs + [get(b).value.value], GetList(n - 1, get(b).value.rest, get))
    ensures get(b).Err? ==> Prepend(xs, GetList(n, b, get)) == Err(get(b).error)
  {
    if get(b).Ok? {
      var rest := GetList(n - 1, get(b).value.rest, get);
      if rest.Ok? {
        assert xs + ([get(b).value.value] + rest.value.value) == xs + [get(b).value.value] + rest.value.value;
      }
    }
  }

  method ReadAttempt(r: ByteReader) returns (x: Result<AttemptRecord, CodecError>)
    requires r.Valid()
    modifies r
    ensures r.Valid() && r.Reads(x, GetAttempt(old(r.Rest())))
  {
    hide GetId, GetU8, GetDigest, GetU16, GetU64;
    var attempt :- r.Fixed16();
    var code :- r.Byte();
    if code < 1 || code > 6 {
      return Err(BadInput);
    }
    var semantic :- r.Fixed32();
    var outcome :- r.U16();
    var auxiliary :- r.U64();
    var high :- r.U64();
    var id :- r.Fixed16();
    return Ok(AttemptRecord(attempt, OperationFrom(code), semantic, outcome, auxiliary, high, id));
  }

  function OperationFrom(code: Byte): OperationKind
    requires 1 <= code <= 6
  {
    if code == 1 then RegisterKind else if code == 2 then GrantKind else if code == 3 then FenceKind
    else if code == 4 then RevokeKind else if code == 5 then AdvanceKind else RetireKind
  }

  method ReadIncarnation(r: ByteReader) returns (x: Result<ActiveIncarnation, CodecError>)
    requires r.Valid()
    modifies r
    ensures r.Valid() && r.Reads(x, GetIncarnation(old(r.Rest())))
  {
    hide GetId, GetU64;
    var boot :- r.Fixed16();
    var sequence :- r.U64();
    var registered :- r.U64();
    return Ok(ActiveIncarnation(boot, sequence, registered));
  }

  method ReadAttempts(r: ByteReader) returns (xs: Result<seq<AttemptRecord>, CodecError>)
    requires r.Valid()
    modifies r
    ensures r.Valid() && r.Reads(xs, GetCounted(old(r.Rest()), MAX_RECORDS, ATTEMPT_SIZE, GetAttempt))
  {
    hide GetU32, GetAttempt;
    var count :- r.U32();
    if count > MAX_RECORDS {
      return Err(OverLimit);
    }
    if count * ATTEMPT_SIZE > |r.data| - r.offset {
      return Err(BadInput);
    }
    ghost var from := r.Rest();
    var read := [];
    PrependNothing(GetList(count, from, GetAttempt));
    for i := 0 to count
      invariant r.Valid()
      invariant GetList(count, from, GetAttempt) == Prepend(read, GetList(count - i, r.Rest(), GetAttempt))
    {
      ListStep(read, count - i, r.Rest(), GetAttempt);
      var x :- ReadAttempt(r);
      read := read + [x];
    }
    PrependToNothing(read, r.Rest());
    return Ok(read);
  }

  method ReadIncarnations(r: ByteReader) returns (xs: Result<seq<ActiveIncarnation>, CodecError>)
    requires r.Valid()
    modifies r
    ensures r.Valid() && r.Reads(xs, GetCounted(old(r.Rest()), MAX_RECORDS, 32, GetIncarnation))
  {
    hide GetU32, GetIncarnation;
    var count :- r.U32();
    if count > MAX_RECORDS {
      return Err(OverLimit);
    }
    if count * 32 > |r.data| - r.offset {
      return Err(BadInput);
    }
    ghost var from := r.Rest();
    var read := [];
    PrependNothing(GetList(count, from, GetIncarnation));
    for i := 0 to count
      invariant r.Valid()
      invariant GetList(count, from, GetIncarnation) == Prepend(read, GetList(count - i, r.Rest(), GetIncarnation))
    {
      ListStep(read, count - i, r.Rest(), GetIncarnation);
      var x :- ReadIncarnation(r);
      read := read + [x];
    }
    PrependToNothing(read, r.Rest());
    return Ok(read);
  }

  method ReadBoots(r: ByteReader) returns (xs: Result<seq<Id>, CodecError>)
    requires r.Valid()
    modifies r
    ensures r.Valid() && r.Reads(xs, GetCounted(old(r.Rest()), MAX_RECORDS, 16, GetId))
  {
    hide GetU32, GetId;
    var count :- r.U32();
    if count > MAX_RECORDS {
      return Err(OverLimit);
    }
    if count * 16 > |r.data| - r.offset {
      return Err(BadInput);
    }
    ghost var from := r.Rest();
    var read := [];
    PrependNothing(GetList(count, from, GetId));
    for i := 0 to count
      invariant r.Valid()
      invariant GetList(count, from, GetId) == Prepend(read, GetList(count - i, r.Rest(), GetId))
    {
      ListStep(read, count - i, r.Rest(), GetId);
      var x :- r.Fixed16();
      read := read + [x];
    }
    PrependToNothing(read, r.Rest());
    return Ok(read);
  }

  method ReadParticipantId(r: ByteReader) returns (x: Result<ParticipantId, CodecError>)
    requires r.Valid()
    modifies r
    ensures r.Valid() && r.Reads(x, GetParticipantId(old(r.Rest()), MAX_TEXT))
  {
    hide GetText, IsIdentifierText;
    var text :- r.Text(MAX_IDENTIFIER, MAX_TEXT);
    var ok := ChecksIdentifier(text, MAX_IDENTIFIER);
    if !ok {
      return Err(BadInput);
    }
    return Ok(ParticipantId(text));
  }

  method ReadBoundedText(r: ByteReader) returns (x: Result<Bytes, CodecError>)
    requires r.Valid()
    modifies r
    ensures r.Valid() && r.Reads(x, GetBoundedText(old(r.Rest()), MAX_TEXT))
  {
    hide GetText, IsBoundedText;
    var text :- r.Text(MAX_TEXT, MAX_TEXT);
    if !IsBoundedText(text, MAX_TEXT) {
      return Err(BadInput);
    }
    return Ok(text);
  }

  method ReadFlags(r: ByteReader) returns (x: Result<Flags, CodecError>)
    requires r.Valid()
    modifies r
    ensures r.Valid() && r.Reads(x, GetFlags(old(r.Rest())))
  {
    hide GetU8;
    var code :- r.Byte();
    if code >= 8 {
      return Err(BadInput);
    }
    return Ok(Flags(code % 2 == 1, code / 2 % 2 == 1, code / 4 == 1));
  }

  method ReadPolicy(r: ByteReader) returns (x: Result<IncarnationPolicy, CodecError>)
    requires r.Valid()
    modifies r
    ensures r.Valid() && r.Reads(x, GetPolicy(old(r.Rest())))
  {
    hide GetU8;
    var code :- r.Byte();
    if code > 1 {
      return Err(BadInput);
    }
    return Ok(if code == 0 then SingleIncarnation else MultiIncarnation);
  }

  method ReadReason(r: ByteReader) returns (x: Result<FenceReason, CodecError>)
    requires r.Valid()
    modifies r
    ensures r.Valid() && r.Reads(x, GetReason(old(r.Rest())))
  {
    hide GetU8;
    var code :- r.Byte();
    match code
    case 0 => return Ok(ProcessLoss);
    case 1 => return Ok(Reincarnation);
    case 2 => return Ok(CoordinatorEpochAdvance);
    case 3 => return Ok(AdministrativeRevoke);
    case 4 => return Ok(SessionProtocolViolation);
    case 5 => return Ok(ExplicitOperatorFence);
    case 6 => return Ok(AuthorityReplaced);
    case 7 => return Ok(ShutdownFence);
    case _ => return Err(BadInput);
  }

  method ReadCause(r: ByteReader) returns (x: Result<TransitionCause, CodecError>)
    requires r.Valid()
    modifies r
    ensures r.Valid() && r.Reads(x, GetCause(old(r.Rest())))
  {
    hide GetU8;
    var code :- r.Byte();
    match code
    case 0 => return Ok(CoordinatorStart);
    case 1 => return Ok(CoordinatorRestart);
    case 2 => return Ok(ExplicitOperatorAdvance);
    case 3 => return Ok(DurableRecovery);
    case _ => return Err(BadInput);
  }

  method ReadScope(r: ByteReader) returns (x: Result<Scope, CodecError>)
    requires r.Valid()
    modifies r
    ensures r.Valid() && r.Reads(x, GetScope(old(r.Rest()), MAX_TEXT))
  {
    hide GetU8, GetText, IsIdentifierText, KindFromCode;
    var code :- r.Byte();
    var kind := KindFromCode(code);
    if kind.None? {
      return Err(BadInput);
    }
    var subject :- r.Text(MAX_SUBJECT, MAX_TEXT);
    var ok := ChecksIdentifier(subject, MAX_SUBJECT);
    if !ok {
      return Err(BadInput);
    }
    return Ok(Scope(kind.value, subject));
  }

  /** Reads a scope set, refusing any scope not strictly after the one before it. */
  method ReadScopes(r: ByteReader) returns (xs: Result<seq<Scope>, CodecError>)
    requires r.Valid()
    modifies r
    ensures r.Valid() && r.Reads(xs, GetScopes(old(r.Rest()), MAX_SCOPES, MAX_TEXT))
  {
    hide GetU32, GetScope, ScopeLess;
    var count :- r.U32();
    if count > MAX_SCOPES {
      return Err(OverLimit);
    }
    ghost var from := r.Rest();
    var read, previous := [], None;
    PrependNothing(GetScopesAfter(count, None, from, MAX_TEXT));
    for i := 0 to count
      invariant r.Valid()
      invariant GetScopesAfter(count, None, from, MAX_TEXT) == Prepend(read, GetScopesAfter(count - i, previous, r.Rest(), MAX_TEXT))
    {
      ghost var spec := GetScopesAfter(count - i, previous, r.Rest(), MAX_TEXT);
      var x :- ReadScope(r);
      if previous.Some? && !ScopeLess(previous.value, x) {
        return Err(BadInput);
      }
      ghost var rest := GetScopesAfter(count - i - 1, Some(x), r.Rest(), MAX_TEXT);
      if rest.Ok? {
        assert read + ([x] + rest.value.value) == read + [x] + rest.value.value;
      }
      read := read + [x];
      previous := Some(x);
    }
    PrependToNothing(read, r.Rest());
    return Ok(read);
  }

  method ReadHead(r: ByteReader) returns (x: Result<Head, CodecError>)
    requires r.Valid()
    modifies r
    ensures r.Valid() && r.Reads(x, GetHead(old(r.Rest())))
  {
    hide GetId, GetU64, GetParticipantId, GetPolicy, GetFlags;
    var id :- ReadParticipantId(r);
    var registration :- r.U64();
    var fence :- r.U64();
    var floor :- r.U64();
    var policy :- ReadPolicy(r);
    var flags :- ReadFlags(r);
    var boot :- r.Fixed16();
    var incarnation :- r.U64();
    var next :- r.U64();
    return Ok(Head(id, registration, fence, floor, policy, flags, boot, incarnation, next));
  }

  method ReadParticipant(r: ByteReader) returns (x: Result<Participant, CodecError>)
    requires r.Valid()
    modifies r
    ensures r.Valid() && r.Reads(x, GetParticipant(old(r.Rest())))
  {
    hide GetHead, GetCounted, GetScopes, GetU64, GetId, GetAttempt, GetIncarnation;
    var h :- ReadHead(r);
    var extras :- ReadIncarnations(r);
    var scopes :- ReadScopes(r);
    var accepted :- r.U64();
    var replays :- r.U64();
    var fenced :- ReadBoots(r);
    var attempts :- ReadAttempts(r);
    return Ok(Participant(h.id, h.registrationGeneration, h.fenceGeneration, h.incarnationFloor, h.policy, h.flags.first,
                          h.flags.second, h.flags.third, h.activeBoot, h.activeIncarnation, h.nextIncarnation, extras, scopes,
                          accepted, replays, fenced, attempts));
  }

  method ReadFence(r: ByteReader) returns (x: Result<FenceRecord, CodecError>)
    requires r.Valid()
    modifies r
    ensures r.Valid() && r.Reads(x, GetFence(old(r.Rest())))
  {
    hide GetId, GetParticipantId, GetReason, GetU64, GetBoundedText;
    var boot :- r.Fixed16();
    var participant :- ReadParticipantId(r);
    var reason :- ReadReason(r);
    var generation :- r.U64();
    var epoch :- r.U64();
    var incarnation :- r.U64();
    var note :- ReadBoundedText(r);
    return Ok(FenceRecord(boot, participant, reason, generation, epoch, incarnation, note));
  }

  method ReadGrant(r: ByteReader) returns (x: Result<Grant, CodecError>)
    requires r.Valid()
    modifies r
    ensures r.Valid() && r.Reads(x, GetGrant(old(r.Rest())))
  {
    hide GetId, GetU64, GetParticipantId, GetScopes, GetGrantTail;
    var id :- r.Fixed16();
    var epoch :- r.U64();
    var participant :- ReadParticipantId(r);
    var boot :- r.Fixed16();
    var incarnation :- r.U64();
    var scopes :- ReadScopes(r);
    var t :- ReadGrantTail(r);
    return Ok(Grant(id, epoch, participant, boot, incarnation, scopes, t.0, t.1, t.2, t.3, t.4, t.5));
  }

  method ReadGrantTail(r: ByteReader) returns (x: Result<(U64, Option<Id>, Option<Id>, bool, U64, Bytes), CodecError>)
    requires r.Valid()
    modifies r
    ensures r.Valid() && r.Reads(x, GetGrantTail(old(r.Rest())))
  {
    hide GetId, GetU64, GetFlags, GetBoundedText;
    var generation :- r.U64();
    var flags :- ReadFlags(r);
    var parentBytes :- r.Fixed16();
    var delegatorBytes :- r.Fixed16();
    var parent := if flags.first then Some(parentBytes) else None;
    var delegator := if flags.second then Some(delegatorBytes) else None;
    var revokedAt :- r.U64();
    var provenance :- ReadBoundedText(r);
    return Ok((generation, parent, delegator, flags.third, revokedAt, provenance));
  }

  method ReadTransition(r: ByteReader) returns (x: Result<Transition, CodecError>)
    requires r.Valid()
    modifies r
    ensures r.Valid() && r.Reads(x, GetTransition(old(r.Rest())))
  {
    hide GetId, GetU64, GetCause, GetBoundedText;
    var id :- r.Fixed16();
    var fromEpoch :- r.U64();
    var toEpoch :- r.U64();
    var cause :- ReadCause(r);
    var boot :- r.Fixed16();
    var generation :- r.U64();
    var provenance :- ReadBoundedText(r);
    return Ok(Transition(id, fromEpoch, toEpoch, cause, boot, generation, provenance));
  }

  method ReadParticipants(r: ByteReader) returns (xs: Result<seq<Participant>, CodecError>)
    requires r.Valid()
    modifies r
    ensures r.Valid() && r.Reads(xs, GetCounted(old(r.Rest()), MAX_RECORDS, 32, GetParticipant))
  {
    hide GetU32, GetParticipant;
    var count :- r.U32();
    if count > MAX_RECORDS {
      return Err(OverLimit);
    }
    if count * 32 > |r.data| - r.offset {
      return Err(BadInput);
    }
    ghost var from := r.Rest();
    var read := [];
    PrependNothing(GetList(count, from, GetParticipant));
    for i := 0 to count
      invariant r.Valid()
      invariant GetList(count, from, GetParticipant) == Prepend(read, GetList(count - i, r.Rest(), GetParticipant))
    {
      ListStep(read, count - i, r.Rest(), GetParticipant);
      var x :- ReadParticipant(r);
      read := read + [x];
    }
    PrependToNothing(read, r.Rest());
    return Ok(read);
  }

  method ReadFences(r: ByteReader) returns (xs: Result<seq<FenceRecord>, CodecError>)
    requires r.Valid()
    modifies r
    ensures r.Valid() && r.Reads(xs, GetCounted(old(r.Rest()), MAX_RECORDS, 49, GetFence))
  {
    hide GetU32, GetFence;
    var count :- r.U32();
    if count > MAX_RECORDS {
      return Err(OverLimit);
    }
    if count * 49 > |r.data| - r.offset {
      return Err(BadInput);
    }
    ghost var from := r.Rest();
    var read := [];
    PrependNothing(GetList(count, from, GetFence));
    for i := 0 to count
      invariant r.Valid()
      invariant GetList(count, from, GetFence) == Prepend(read, GetList(count - i, r.Rest(), GetFence))
    {
      ListStep(read, count - i, r.Rest(), GetFence);
      var x :- ReadFence(r);
      read := read + [x];
    }
    PrependToNothing(read, r.Rest());
    return Ok(read);
  }

  method ReadGrants(r: ByteReader) returns (xs: Result<seq<Grant>, CodecError>)
    requires r.Valid()
    modifies r
    ensures r.Valid() && r.Reads(xs, GetCounted(old(r.Rest()), MAX_RECORDS, 89, GetGrant))
  {
    hide GetU32, GetGrant;
    var count :- r.U32();
    if count > MAX_RECORDS {
      return Err(OverLimit);
    }
    if count * 89 > |r.data| - r.offset {
      return Err(BadInput);
    }
    ghost var from := r.Rest();
    var read := [];
    PrependNothing(GetList(count, from, GetGrant));
    for i := 0 to count
      invariant r.Valid()
      invariant GetList(count, from, GetGrant) == Prepend(read, GetList(count - i, r.Rest(), GetGrant))
    {
      ListStep(read, count - i, r.Rest(), GetGrant);
      var x :- ReadGrant(r);
      read := read + [x];
    }
    PrependToNothing(read, r.Rest());
    return Ok(read);
  }

  method ReadTransitions(r: ByteReader) returns (xs: Result<seq<Transition>, CodecError>)
    requires r.Valid()
    modifies r
    ensures r.Valid() && r.Reads(xs, GetCounted(old(r.Rest()), MAX_RECORDS, TRANSITION_DEMAND, GetTransition))
  {
    hide GetU32, GetTransition;
    var count :- r.U32();
    if count > MAX_RECORDS {
      return Err(OverLimit);
    }
    if count * TRANSITION_DEMAND > |r.data| - r.offset {
      return Err(BadInput);
    }
    ghost var from := r.Rest();
    var read := [];
    PrependNothing(GetList(count, from, GetTransition));
    for i := 0 to count
      invariant r.Valid()
      invariant GetList(count, from, GetTransition) == Prepend(read, GetList(count - i, r.Rest(), GetTransition))
    {
      ListStep(read, count - i, r.Rest(), GetTransition);
      var x :- ReadTransition(r);
      read := read + [x];
    }
    PrependToNothing(read, r.Rest());
    return Ok(read);
  }

  method ReadCounters(r: ByteReader) returns (c: Result<Counters, CodecError>)
    requires r.Valid()
    modifies r
    ensures r.Valid() && r.Reads(c, GetCounters(old(r.Rest())))
  {
    hide GetId, GetU64;
    var epoch :- r.U64();
    var boot :- r.Fixed16();
    var generation :- r.U64();
    var registrationFloor :- r.U64();
    var fenceFloor :- r.U64();
    return Ok(Counters(epoch, boot, generation, registrationFloor, fenceFloor));
  }

  method ReadAuthority(r: ByteReader) returns (a: Result<(seq<Participant>, seq<FenceRecord>, seq<Grant>), CodecError>)
    requires r.Valid()
    modifies r
    ensures r.Valid() && r.Reads(a, GetAuthority(old(r.Rest())))
  {
    hide GetCounted, GetParticipant, GetFence, GetGrant;
    var participants :- ReadParticipants(r);
    var fences :- ReadFences(r);
    var grants :- ReadGrants(r);
    return Ok((participants, fences, grants));
  }

  method ReadHistory(r: ByteReader) returns (h: Result<(seq<Transition>, seq<AttemptRecord>), CodecError>)
    requires r.Valid()
    modifies r
    ensures r.Valid() && r.Reads(h, GetHistory(old(r.Rest())))
  {
    hide GetCounted, GetTransition, GetAttempt;
    var transitions :- ReadTransitions(r);
    var control :- ReadAttempts(r);
    return Ok((transitions, control));
  }

  /** The decoder of a durable payload; every byte must be used. */
  method DecodeDurable(payload: Bytes) returns (d: Result<DurableState, CodecError>)
    ensures d == DecodePayload(payload)
  {
    hide GetCounters, GetAuthority, GetHistory, DecodePayload;
    DecodeInParts(payload);
    var r := new ByteReader(payload);
    var c :- ReadCounters(r);
    var a :- ReadAuthority(r);
    var h :- ReadHistory(r);
    var ended := r.RequireEnd();
    if !ended {
      return Err(BadInput);
    }
    return Ok(DurableState(c.epoch, c.coordinatorBoot, c.generation, c.registrationFloor, c.fenceFloor, a.0, a.1, a.2, h.0, h.1));
  }

  lemma DecodeInParts(b: Bytes)
    ensures var c := GetCounters(b);
            if c.Err? then DecodePayload(b) == Err(c.error)
            else
              var a := GetAuthority(c.value.rest);
              if a.Err? then DecodePayload(b) == Err(a.error)
              else
                var h := GetHistory(a.value.rest);
                if h.Err? then DecodePayload(b) == Err(h.error)
                else if h.value.rest != [] then DecodePayload(b) == Err(BadInput)
                else DecodePayload(b) ==
                     Ok(DurableState(c.value.value.epoch, c.value.value.coordinatorBoot, c.value.value.generation,
                                     c.value.value.registrationFloor, c.value.value.fenceFloor, a.value.value.0, a.value.value.1,
                                     a.value.value.2, h.value.value.0, h.value.value.1))
  {
    hide GetCounters, GetAuthority, GetHistory;
  }
}
