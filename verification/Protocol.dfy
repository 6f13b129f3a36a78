/** The wire protocol: frames, and the payload of a registration request. For both, decoding and
    encoding are inverses of each other on everything the decoder accepts. */
module Protocol {
  import opened Basics
  import opened Model
  import opened Encoding
  import opened Identity
  import opened Scopes
  import opened Codec
  import opened DurableStream
  import opened Sha256
  import opened SnapshotDigest

  /** The configured limits a decoder applies. */
  datatype WireLimits = WireLimits(maxString: nat, maxScopes: nat, maxFramePayload: nat, maxRequestSize: nat)

  // ---- registration requests ---------------------------------------------

  datatype WireRequest = WireRequest(request: RegisterRequest, session: Id)

  /** What the types and the limits allow a request on the wire to hold. */
  predicate WireFits(w: WireRequest, l: WireLimits) {
    var q := w.request;
    && IdFits(q.participant) && |q.participant.text| <= l.maxString
    && ScopesWell(q.scopes) && |q.scopes| <= l.maxScopes && |q.scopes| < 0x1_0000_0000
    && (forall s :: s in q.scopes ==> |s.subject| <= l.maxString)
    && IsBoundedText(q.provenance, l.maxString) && |q.provenance| <= MAX_BYTES
  }

  /** The fields before the scopes. */
  function GetFront(b: Bytes, l: WireLimits): Read<(Id, U64, ParticipantId, Id)> {
    var attempt :- GetId(b);
    var epoch :- GetU64(attempt.rest);
    var participant :- GetParticipantId(epoch.rest, l.maxString);
    var boot :- GetId(participant.rest);
    Ok(Parsed((attempt.value, epoch.value, participant.value, boot.value), boot.rest))
  }

  /** A generation behind its presence flag; without the flag the field must be zero. */
  function GetExpected(b: Bytes): Read<Option<U64>> {
    var flag :- GetU8(b);
    if flag.value > 1 then Err(BadInput)
    else
      var generation :- GetU64(flag.rest);
      if flag.value == 1 then Ok(Parsed(Some(generation.value), generation.rest))
      else if generation.value != 0 then Err(BadInput)
      else Ok(Parsed(None, generation.rest))
  }

  /** The fields after the scopes. */
  function GetBack(b: Bytes, l: WireLimits): Read<(IncarnationPolicy, Option<U64>, Bytes, Id)> {
    var policy :- GetPolicy(b);
    var expected :- GetExpected(policy.rest);
    var provenance :- GetBoundedText(expected.rest, l.maxString);
    var session :- GetId(provenance.rest);
    Ok(Parsed((policy.value, expected.value, provenance.value, session.value), session.rest))
  }

  function DecodeRegister(b: Bytes, l: WireLimits): Result<WireRequest, CodecError> {
    var front :- GetFront(b, l);
    var scopes :- GetScopes(front.rest, l.maxScopes, l.maxString);
    var back :- GetBack(scopes.rest, l);
    if back.rest != [] then Err(BadInput)
    else Ok(WireRequest(RegisterRequest(front.value.0, front.value.1, front.value.2, front.value.3, scopes.value, back.value.0,
                                        back.value.1, back.value.2), back.value.3))
  }

  function PutFront(q: RegisterRequest, tail: Bytes): Bytes
    requires |q.participant.text| < 0x1_0000_0000
  {
    PutId(q.attempt, PutU64(q.expectedEpoch, PutText(q.participant.text, PutId(q.boot, tail))))
  }

  function PutExpected(g: Option<U64>, tail: Bytes): Bytes {
    PutU8(if g.Some? then 1 else 0, PutU64(if g.Some? then g.value else 0, tail))
  }

  function PutBack(q: RegisterRequest, session: Id): Bytes
    requires |q.provenance| < 0x1_0000_0000
  {
    PutU8(PolicyCode(q.policy), PutExpected(q.expectedGeneration, PutText(q.provenance, PutId(session, []))))
  }

  function EncodeRegister(w: WireRequest): Bytes
    requires |w.request.participant.text| < 0x1_0000_0000 && |w.request.provenance| < 0x1_0000_0000
    requires |w.request.scopes| < 0x1_0000_0000 && forall s :: s in w.request.scopes ==> |s.subject| < 0x1_0000_0000
  {
    PutFront(w.request, PutScopes(w.request.scopes, PutBack(w.request, w.session)))
  }

  lemma FrontRoundTrip(q: RegisterRequest, tail: Bytes, l: WireLimits)
    requires IdFits(q.participant) && |q.participant.text| <= l.maxString
    ensures |q.participant.text| < 0x1_0000_0000
    ensures GetFront(PutFront(q, tail), l) == Ok(Parsed((q.attempt, q.expectedEpoch, q.participant, q.boot), tail))
  {
    hide GetId, PutId, GetU64, PutU64, GetText, PutText;
  }

  lemma BackRoundTrip(q: RegisterRequest, session: Id, l: WireLimits)
    requires IsBoundedText(q.provenance, l.maxString) && |q.provenance| <= MAX_BYTES
    ensures GetBack(PutBack(q, session), l) == Ok(Parsed((q.policy, q.expectedGeneration, q.provenance, session), []))
  {
    hide GetId, PutId, GetU64, PutU64, GetText, PutText, GetU8, PutU8;
    var t := PutText(q.provenance, PutId(session, []));
    assert GetExpected(PutExpected(q.expectedGeneration, t)) == Ok(Parsed(q.expectedGeneration, t));
  }

  predicate FrontIs(q: RegisterRequest, front: (Id, U64, ParticipantId, Id)) {
    q.attempt == front.0 && q.expectedEpoch == front.1 && q.participant == front.2 && q.boot == front.3
  }

  lemma FrontPutsBack(b: Bytes, l: WireLimits)
    requires GetFront(b, l).Ok?
    ensures var p := GetFront(b, l).value;
            && IdFits(p.value.2) && |p.value.2.text| <= l.maxString && |p.value.2.text| < 0x1_0000_0000
            && forall q: RegisterRequest :: FrontIs(q, p.value) ==> PutFront(q, p.rest) == b
  {
    hide GetU64, PutU64, GetText, PutText, IsIdentifierText, BigValue, BigBytes;
    var attempt := GetId(b).value;
    var epoch := GetU64(attempt.rest).value;
    var text := GetText(epoch.rest, MAX_IDENTIFIER, l.maxString).value;
    PutBackId(b);
    PutBackU64(attempt.rest);
    PutBackText(epoch.rest, MAX_IDENTIFIER, l.maxString);
    PutBackId(text.rest);
  }

  lemma ExpectedPutsBack(b: Bytes)
    requires GetExpected(b).Ok?
    ensures var p := GetExpected(b).value; PutExpected(p.value, p.rest) == b
  {
    hide GetU64, PutU64, PutU8;
    var flag := GetU8(b).value;
    PutBackU8(b);
    PutBackU64(flag.rest);
  }

  lemma BackPutsBack(b: Bytes, l: WireLimits)
    requires GetBack(b, l).Ok? && GetBack(b, l).value.rest == []
    ensures var p := GetBack(b, l).value.value;
            && IsBoundedText(p.2, l.maxString) && |p.2| <= MAX_BYTES
            && forall q: RegisterRequest :: q.policy == p.0 && q.expectedGeneration == p.1 && q.provenance == p.2 ==> PutBack(q, p.3) == b
  {
    hide PutU8, GetExpected, PutExpected, GetText, PutText, IsBoundedText, BigValue, BigBytes;
    var policy := GetPolicy(b).value;
    var expected := GetExpected(policy.rest).value;
    var provenance := GetText(expected.rest, l.maxString, l.maxString).value;
    PutBackU8(b);
    ExpectedPutsBack(policy.rest);
    PutBackText(expected.rest, l.maxString, l.maxString);
    TextWithinCeiling(expected.rest, l.maxString);
    PutBackId(provenance.rest);
  }

  lemma TextWithinCeiling(b: Bytes, max: nat)
    ensures GetText(b, max, max).Ok? ==> |GetText(b, max, max).value.value| <= MAX_BYTES
  {
  }

  /** Encoding then decoding gives the request back. */
  lemma RegisterDecodesEncoded(w: WireRequest, l: WireLimits)
    requires WireFits(w, l)
    ensures |w.request.participant.text| < 0x1_0000_0000 && forall s :: s in w.request.scopes ==> |s.subject| < 0x1_0000_0000
    ensures DecodeRegister(EncodeRegister(w), l) == Ok(w)
  {
    hide GetFront, PutFront, GetScopes, PutScopes, GetBack, PutBack, IdFits, ScopesWell, IsBoundedText;
    var q := w.request;
    WellRoundTrip(q.scopes, PutBack(q, w.session), l.maxString);
    FrontRoundTrip(q, PutScopes(q.scopes, PutBack(q, w.session)), l);
    BackRoundTrip(q, w.session, l);
  }

  /** What is decoded fits the limits, and encodes to the very bytes it was decoded from. */
  lemma RegisterEncodesDecoded(b: Bytes, l: WireLimits)
    requires DecodeRegister(b, l).Ok?
    ensures var w := DecodeRegister(b, l).value;
            && WireFits(w, l) && |w.request.participant.text| < 0x1_0000_0000
            && (forall s :: s in w.request.scopes ==> |s.subject| < 0x1_0000_0000)
            && EncodeRegister(w) == b
  {
    hide GetFront, PutFront, GetScopes, PutScopes, GetBack, PutBack, IdFits, ScopesWell, IsBoundedText;
    var front := GetFront(b, l).value;
    var scopes := GetScopes(front.rest, l.maxScopes, l.maxString).value;
    FrontPutsBack(b, l);
    PutBackScopes(front.rest, l.maxScopes, l.maxString);
    BackPutsBack(scopes.rest, l);
  }

  /** Two-sided inverses: a payload is accepted as a request exactly when it is the encoding of
      that request and the request fits the limits. */
  lemma RegisterCodecIff(b: Bytes, w: WireRequest, l: WireLimits)
    ensures DecodeRegister(b, l) == Ok(w) <==>
            && WireFits(w, l) && |w.request.participant.text| < 0x1_0000_0000
            && (forall s :: s in w.request.scopes ==> |s.subject| < 0x1_0000_0000)
            && b == EncodeRegister(w)
  {
    hide DecodeRegister, EncodeRegister, IdFits, ScopesWell, IsBoundedText;
    if DecodeRegister(b, l) == Ok(w) {
      RegisterEncodesDecoded(b, l);
    }
    if WireFits(w, l) {
      RegisterDecodesEncoded(w, l);
    }
  }

  // ---- frames --------------------------------------------------------------

  const FRAME_MAGIC: U32 := 0x46455031
  const WIRE_VERSION: U16 := 1
  const INTEGRITY_OFFSET: nat := 46
  const FRAME_HEADER: nat := 78

  /** Message types are numbered from 1 to 24. */
  type MessageType = x: int | 1 <= x <= 24 witness 1

  /** Requests: hello, register, fence, validate, advance, epoch state, revoke, query, snapshot,
      explain, retire. */
  predicate IsRequestMessage(t: MessageType) {
    t in {1, 3, 5, 7, 9, 10, 12, 14, 16, 18, 23}
  }

  datatype Frame = Frame(kind: MessageType, sequence: U64, epoch: U64, requestId: Id, payload: Bytes)

  datatype FrameError = MalformedFrame | FrameVersion | FrameTooLarge | FrameIntegrity

  predicate PayloadAllowed(kind: MessageType, length: nat, l: WireLimits) {
    length <= l.maxFramePayload && (IsRequestMessage(kind) ==> length <= l.maxRequestSize)
  }

  /** The header up to its integrity field. */
  function PutFrameFields(f: Frame, length: U32, tail: Bytes): (b: Bytes)
    ensures |b| == INTEGRITY_OFFSET + |tail|
  {
    hide PutU32, PutU16, PutU64, PutId;
    PutU32(FRAME_MAGIC, PutU16(WIRE_VERSION, PutU16(f.kind, PutU16(0, PutU32(length, PutU64(f.sequence, PutU64(f.epoch,
      PutId(f.requestId, tail))))))))
  }

  function EncodeFrame(f: Frame, l: WireLimits): Result<Bytes, FrameError> {
    if !PayloadAllowed(f.kind, |f.payload|, l) || |f.payload| >= 0x1_0000_0000 then Err(FrameTooLarge)
    else
      var header := PutFrameFields(f, |f.payload|, []);
      Ok(header + Hash(header + f.payload) + f.payload)
  }

  datatype FrameFields = FrameFields(kind: MessageType, length: U32, sequence: U64, epoch: U64, requestId: Id)

  function GetFrameKind(b: Bytes): Result<Parsed<MessageType>, FrameError>
    requires |b| == FRAME_HEADER
    ensures GetFrameKind(b).Ok? ==> |GetFrameKind(b).value.rest| == 68
  {
    var magic := GetU32(b).value;
    var version := GetU16(magic.rest).value;
    var kind := GetU16(version.rest).value;
    var flags := GetU16(kind.rest).value;
    if magic.value != FRAME_MAGIC then Err(MalformedFrame)
    else if version.value != WIRE_VERSION then Err(FrameVersion)
    else if kind.value < 1 || kind.value > 24 then Err(MalformedFrame)
    else if flags.value != 0 then Err(MalformedFrame)
    else Ok(Parsed(kind.value, flags.rest))
  }

  function GetFrameRest(kind: MessageType, b: Bytes, l: WireLimits): (r: Result<Parsed<FrameFields>, FrameError>)
    requires |b| == 68
    ensures r.Ok? ==> |r.value.rest| == 32
  {
    var length := GetU32(b).value;
    var sequence := GetU64(length.rest).value;
    var epoch := GetU64(sequence.rest).value;
    var id := GetId(epoch.rest).value;
    if !PayloadAllowed(kind, length.value, l) then Err(FrameTooLarge)
    else Ok(Parsed(FrameFields(kind, length.value, sequence.value, epoch.value, id.value), id.rest))
  }

  function GetFrameFields(b: Bytes, l: WireLimits): (r: Result<Parsed<FrameFields>, FrameError>)
    requires |b| == FRAME_HEADER
    ensures r.Ok? ==> |r.value.rest| == 32
  {
    var kind := GetFrameKind(b);
    if kind.Err? then Err(kind.error) else GetFrameRest(kind.value.value, kind.value.rest, l)
  }

  /** A frame is decoded from its fixed header and the payload bytes received after it. */
  function DecodeFrame(header: Bytes, payload: Bytes, l: WireLimits): Result<Frame, FrameError> {
    if |header| != FRAME_HEADER then Err(MalformedFrame)
    else
      var p :- GetFrameFields(header, l);
      if p.value.length != |payload| then Err(MalformedFrame)
      else if Hash(header[..INTEGRITY_OFFSET] + payload) != p.rest then Err(FrameIntegrity)
      else Ok(Frame(p.value.kind, p.value.sequence, p.value.epoch, p.value.requestId, payload))
  }

  lemma FieldsRoundTrip(f: Frame, length: U32, tail: Bytes, l: WireLimits)
    requires |tail| == 32 && PayloadAllowed(f.kind, length, l)
    ensures var b := PutFrameFields(f, length, tail);
            |b| == FRAME_HEADER
            && GetFrameFields(b, l) == Ok(Parsed(FrameFields(f.kind, length, f.sequence, f.epoch, f.requestId), tail))
  {
    hide GetU32, PutU32, GetU16, PutU16, GetU64, PutU64, GetId, PutId, PayloadAllowed;
    var rest := PutU32(length, PutU64(f.sequence, PutU64(f.epoch, PutId(f.requestId, tail))));
    assert GetFrameKind(PutFrameFields(f, length, tail)) == Ok(Parsed(f.kind, rest));
  }

  lemma KindPutsBack(b: Bytes)
    requires |b| == FRAME_HEADER && GetFrameKind(b).Ok?
    ensures var p := GetFrameKind(b).value;
            b == PutU32(FRAME_MAGIC, PutU16(WIRE_VERSION, PutU16(p.value, PutU16(0, p.rest))))
  {
    hide LittleValue, LittleBytes, PutU32, PutU16;
    var magic := GetU32(b).value;
    var version := GetU16(magic.rest).value;
    var kind := GetU16(version.rest).value;
    PutBackU32(b);
    PutBackU16(magic.rest);
    PutBackU16(version.rest);
    PutBackU16(kind.rest);
  }

  lemma FieldsPutBack(b: Bytes, l: WireLimits)
    requires |b| == FRAME_HEADER && GetFrameFields(b, l).Ok?
    ensures var p := GetFrameFields(b, l).value;
            && PayloadAllowed(p.value.kind, p.value.length, l)
            && forall payload: Bytes ::
                 PutFrameFields(Frame(p.value.kind, p.value.sequence, p.value.epoch, p.value.requestId, payload), p.value.length, p.rest) == b
  {
    hide LittleValue, LittleBytes, BigValue, BigBytes, GetFrameKind, PutU32, PutU16, PutU64, PutId, PayloadAllowed;
    var kind := GetFrameKind(b).value;
    var length := GetU32(kind.rest).value;
    var sequence := GetU64(length.rest).value;
    var epoch := GetU64(sequence.rest).value;
    KindPutsBack(b);
    PutBackU32(kind.rest);
    PutBackU64(length.rest);
    PutBackU64(sequence.rest);
    PutBackId(epoch.rest);
  }

  lemma FieldsAppend(f: Frame, length: U32, tail: Bytes)
    ensures PutFrameFields(f, length, []) + tail == PutFrameFields(f, length, tail)
    ensures PutFrameFields(f, length, tail)[..INTEGRITY_OFFSET] == PutFrameFields(f, length, [])
  {
    hide LittleBytes, BigBytes, Pow256;
    Widths();
    var a, b, c, d, e, s, h := LittleBytes(FRAME_MAGIC, 4), LittleBytes(WIRE_VERSION, 2), LittleBytes(f.kind, 2), LittleBytes(0, 2),
                               LittleBytes(length, 4), LittleBytes(f.sequence, 8), LittleBytes(f.epoch, 8);
    var id := BigBytes(f.requestId, 16);
    assert PutFrameFields(f, length, tail) == a + (b + (c + (d + (e + (s + (h + (id + tail)))))));
    assert PutFrameFields(f, length, []) == a + (b + (c + (d + (e + (s + (h + (id + [])))))));
    assert PutFrameFields(f, length, []) + tail == PutFrameFields(f, length, tail);
    assert |PutFrameFields(f, length, [])| == INTEGRITY_OFFSET;
  }

  /** Frames: header and payload are accepted as a frame exactly when together they are the
      encoding of that frame. */
  lemma FrameCodecIff(header: Bytes, payload: Bytes, f: Frame, l: WireLimits)
    requires |payload| < 0x1_0000_0000
    ensures DecodeFrame(header, payload, l) == Ok(f) <==>
            |header| == FRAME_HEADER && payload == f.payload && EncodeFrame(f, l) == Ok(header + payload)
  {
    hide PutFrameFields, GetFrameFields, Hash, PayloadAllowed;
    if DecodeFrame(header, payload, l) == Ok(f) {
      FieldsPutBack(header, l);
      var p := GetFrameFields(header, l).value;
      FieldsAppend(f, p.value.length, p.rest);
    }
    if |header| == FRAME_HEADER && payload == f.payload && EncodeFrame(f, l) == Ok(header + payload) {
      var front := PutFrameFields(f, |payload|, []);
      var digest := Hash(front + payload);
      assert header + payload == (front + digest) + payload;
      assert header == (header + payload)[..FRAME_HEADER] == front + digest;
      FieldsAppend(f, |payload|, digest);
      FieldsRoundTrip(f, |payload|, digest, l);
    }
  }

  // ---- streams -------------------------------------------------------------

  /** The encoder of a registration request; it refuses a provenance outside the limits. */
  method EncodeRegisterRequest(w: WireRequest, l: WireLimits) returns (r: Result<Bytes, CodecError>)
    requires |w.request.participant.text| < 0x1_0000_0000 && |w.request.provenance| < 0x1_0000_0000
    requires |w.request.scopes| < 0x1_0000_0000 && forall s :: s in w.request.scopes ==> |s.subject| < 0x1_0000_0000
    ensures r == if IsBoundedText(w.request.provenance, l.maxString) then Ok(EncodeRegister(w)) else Err(BadInput)
  {
    hide PutFront, PutScopes, PutBack, IsBoundedText;
    var q := w.request;
    var writer := new ByteWriter();
    WriteFront(writer, q);
    var ok := WriteScopes(writer, q.scopes);
    ghost var middle := writer.buffer;
    if !IsBoundedText(q.provenance, l.maxString) {
      return Err(BadInput);
    }
    WriteBack(writer, q, w.session);
    assert [] + EncodeRegister(w) == EncodeRegister(w);
    assert middle + PutBack(q, w.session) == EncodeRegister(w);
    return Ok(writer.buffer);
  }

  method WriteFront(w: ByteWriter, q: RegisterRequest)
    requires |q.participant.text| < 0x1_0000_0000
    modifies w
    ensures forall tail: Bytes :: w.buffer + tail == old(w.buffer) + PutFront(q, tail)
  {
    hide PutId, PutU64, PutText;
    w.Fixed16(q.attempt);
    w.U64(q.expectedEpoch);
    var ok := w.Text(q.participant.text);
    w.Fixed16(q.boot);
  }

  method WriteBack(w: ByteWriter, q: RegisterRequest, session: Id)
    requires |q.provenance| < 0x1_0000_0000
    modifies w
    ensures w.buffer == old(w.buffer) + PutBack(q, session)
  {
    hide PutId, PutU64, PutText, PutU8;
    w.Byte(PolicyCode(q.policy));
    w.Byte(if q.expectedGeneration.Some? then 1 else 0);
    w.U64(if q.expectedGeneration.Some? then q.expectedGeneration.value else 0);
    var ok := w.Text(q.provenance);
    w.Fixed16(session);
    assert w.buffer + [] == w.buffer;
  }

  method ReadScopeSet(r: ByteReader, l: WireLimits) returns (xs: Result<seq<Scope>, CodecError>)
    requires r.Valid()
    modifies r
    ensures r.Valid() && r.Reads(xs, GetScopes(old(r.Rest()), l.maxScopes, l.maxString))
  {
    hide GetU32, GetScope, ScopeLess;
    var count :- r.U32();
    if count > l.maxScopes {
      return Err(OverLimit);
    }
    ghost var from := r.Rest();
    var read, previous := [], None;
    PrependNothing(GetScopesAfter(count, None, from, l.maxString));
    for i := 0 to count
      invariant r.Valid()
      invariant GetScopesAfter(count, None, from, l.maxString) == Prepend(read, GetScopesAfter(count - i, previous, r.Rest(), l.maxString))
    {
      ghost var spec := GetScopesAfter(count - i, previous, r.Rest(), l.maxString);
      var x :- ReadOneScope(r, l);
      if previous.Some? && !ScopeLess(previous.value, x) {
        return Err(BadInput);
      }
      ghost var rest := GetScopesAfter(count - i - 1, Some(x), r.Rest(), l.maxString);
      if rest.Ok? {
        assert read + ([x] + rest.value.value) == read + [x] + rest.value.value;
      }
      read := read + [x];
      previous := Some(x);
    }
    PrependToNothing(read, r.Rest());
    return Ok(read);
  }

  method ReadOneScope(r: ByteReader, l: WireLimits) returns (x: Result<Scope, CodecError>)
    requires r.Valid()
    modifies r
    ensures r.Valid() && r.Reads(x, GetScope(old(r.Rest()), l.maxString))
  {
    hide GetU8, GetText, IsIdentifierText, KindFromCode;
    var code :- r.Byte();
    var kind := KindFromCode(code);
    if kind.None? {
      return Err(BadInput);
    }
    var subject :- r.Text(MAX_SUBJECT, l.maxString);
    var ok := ChecksIdentifier(subject, MAX_SUBJECT);
    if !ok {
      return Err(BadInput);
    }
    return Ok(Scope(kind.value, subject));
  }

  method ReadFront(r: ByteReader, l: WireLimits) returns (x: Result<(Id, U64, ParticipantId, Id), CodecError>)
    requires r.Valid()
    modifies r
    ensures r.Valid() && r.Reads(x, GetFront(old(r.Rest()), l))
  {
    hide GetId, GetU64, GetText, IsIdentifierText;
    var attempt :- r.Fixed16();
    var epoch :- r.U64();
    var text :- r.Text(MAX_IDENTIFIER, l.maxString);
    var ok := ChecksIdentifier(text, MAX_IDENTIFIER);
    if !ok {
      return Err(BadInput);
    }
    var boot :- r.Fixed16();
    return Ok((attempt, epoch, ParticipantId(text), boot));
  }

  method ReadBack(r: ByteReader, l: WireLimits) returns (x: Result<(IncarnationPolicy, Option<U64>, Bytes, Id), CodecError>)
    requires r.Valid()
    modifies r
    ensures r.Valid() && r.Reads(x, GetBack(old(r.Rest()), l))
  {
    hide GetId, GetU64, GetText, GetU8, GetPolicy, IsBoundedText;
    var policy :- ReadPolicy(r);
    var flag :- r.Byte();
    if flag > 1 {
      return Err(BadInput);
    }
    var generation :- r.U64();
    if flag == 0 && generation != 0 {
      return Err(BadInput);
    }
    var provenance :- r.Text(l.maxString, l.maxString);
    if !IsBoundedText(provenance, l.maxString) {
      return Err(BadInput);
    }
    var session :- r.Fixed16();
    return Ok((policy, if flag == 1 then Some(generation) else None, provenance, session));
  }

  /** The decoder of a registration request. */
  method DecodeRegisterRequest(payload: Bytes, l: WireLimits) returns (w: Result<WireRequest, CodecError>)
    ensures w == DecodeRegister(payload, l)
  {
    hide GetFront, GetScopes, GetBack, DecodeRegister;
    DecodeInParts(payload, l);
    var r := new ByteReader(payload);
    var front :- ReadFront(r, l);
    var scopes :- ReadScopeSet(r, l);
    var back :- ReadBack(r, l);
    var ended := r.RequireEnd();
    if !ended {
      return Err(BadInput);
    }
    return Ok(WireRequest(RegisterRequest(front.0, front.1, front.2, front.3, scopes, back.0, back.1, back.2), back.3));
  }

  lemma DecodeInParts(b: Bytes, l: WireLimits)
    ensures var front := GetFront(b, l);
            if front.Err? then DecodeRegister(b, l) == Err(front.error)
            else
              var scopes := GetScopes(front.value.rest, l.maxScopes, l.maxString);
              if scopes.Err? then DecodeRegister(b, l) == Err(scopes.error)
              else
                var back := GetBack(scopes.value.rest, l);
                if back.Err? then DecodeRegister(b, l) == Err(back.error)
                else if back.value.rest != [] then DecodeRegister(b, l) == Err(BadInput)
                else
                  var (attempt, epoch, participant, boot) := front.value.value;
                  var (policy, expected, provenance, session) := back.value.value;
                  DecodeRegister(b, l) == Ok(WireRequest(RegisterRequest(attempt, epoch, participant, boot, scopes.value.value, policy,
                                                                         expected, provenance), session))
  {
    hide GetFront, GetScopes, GetBack;
  }

  /** The encoder of a frame; the digest covers the other header fields and the payload. */
  method WriteFrame(f: Frame, l: WireLimits) returns (r: Result<Bytes, FrameError>)
    ensures r == EncodeFrame(f, l)
  {
    hide PutFrameFields, Hash, PayloadAllowed;
    if !PayloadAllowed(f.kind, |f.payload|, l) || |f.payload| >= 0x1_0000_0000 {
      return Err(FrameTooLarge);
    }
    var header := WriteFrameFields(f, |f.payload|);
    var digest := HashInTwoParts(header, f.payload);
    var w := new ByteWriter();
    w.Raw(header);
    w.Raw(digest);
    w.Raw(f.payload);
    assert [] + header + digest + f.payload == header + digest + f.payload;
    return Ok(w.buffer);
  }

  method WriteFrameFields(f: Frame, length: U32) returns (header: Bytes)
    ensures header == PutFrameFields(f, length, [])
  {
    hide PutU32, PutU16, PutU64, PutId;
    var w := new ByteWriter();
    w.U32(FRAME_MAGIC);
    w.U16(WIRE_VERSION);
    w.U16(f.kind);
    w.U16(0);
    w.U32(length);
    w.U64(f.sequence);
    w.U64(f.epoch);
    w.Fixed16(f.requestId);
    header := w.buffer;
    assert header + [] == header && [] + PutFrameFields(f, length, []) == PutFrameFields(f, length, []);
  }

  /** Two updates of one hasher. */
  method HashInTwoParts(a: Bytes, b: Bytes) returns (digest: Bytes)
    ensures digest == Hash(a + b)
  {
    hide Hash, HashBlocks, Whole, Left, Padded, Output;
    var hasher := new Hasher();
    hasher.Update(a);
    hasher.Update(b);
    assert [] + a + b == a + b;
    digest := hasher.Finish();
  }

  /** The decoder of a frame. */
  method ReadFrame(header: Bytes, payload: Bytes, l: WireLimits) returns (r: Result<Frame, FrameError>)
    ensures r == DecodeFrame(header, payload, l)
  {
    hide GetFrameFields, Hash;
    if |header| != FRAME_HEADER {
      return Err(MalformedFrame);
    }
    var fields := ReadFrameFields(header, l);
    if fields.Err? {
      return Err(fields.error);
    }
    var p := fields.value;
    if p.value.length != |payload| {
      return Err(MalformedFrame);
    }
    var computed := HashInTwoParts(header[..INTEGRITY_OFFSET], payload);
    if computed != p.rest {
      return Err(FrameIntegrity);
    }
    return Ok(Frame(p.value.kind, p.value.sequence, p.value.epoch, p.value.requestId, payload));
  }

  method ReadFrameFields(header: Bytes, l: WireLimits) returns (r: Result<Parsed<FrameFields>, FrameError>)
    requires |header| == FRAME_HEADER
    ensures r == GetFrameFields(header, l)
  {
    hide GetFrameKind, GetFrameRest;
    var reader := new ByteReader(header);
    var kind := ReadFrameKind(reader);
    if kind.Err? {
      return Err(kind.error);
    }
    r := ReadFrameRest(reader, kind.value, l);
  }

  method ReadFrameRest(reader: ByteReader, kind: MessageType, l: WireLimits) returns (r: Result<Parsed<FrameFields>, FrameError>)
    requires reader.Valid() && |reader.Rest()| == 68
    modifies reader
    ensures r == GetFrameRest(kind, old(reader.Rest()), l)
  {
    hide GetU32, GetU64, GetId, PayloadAllowed;
    Lengths(reader.Rest());
    var length := reader.U32();
    if !PayloadAllowed(kind, length.value, l) {
      return Err(FrameTooLarge);
    }
    var sequence := reader.U64();
    var epoch := reader.U64();
    var id := reader.Fixed16();
    ghost var left := reader.Rest();
    var integrity := reader.Take(32);
    assert left[..32] == left;
    return Ok(Parsed(FrameFields(kind, length.value, sequence.value, epoch.value, id.value), integrity.value));
  }

  lemma Lengths(b: Bytes)
    requires |b| == 68
    ensures GetU32(b).Ok? && GetU64(GetU32(b).value.rest).Ok? && GetU64(GetU64(GetU32(b).value.rest).value.rest).Ok?
    ensures GetId(GetU64(GetU64(GetU32(b).value.rest).value.rest).value.rest).Ok?
    ensures |GetId(GetU64(GetU64(GetU32(b).value.rest).value.rest).value.rest).value.rest| == 32
  {
    hide LittleValue, BigValue;
  }

  method ReadFrameKind(reader: ByteReader) returns (r: Result<MessageType, FrameError>)
    requires reader.Valid() && |reader.Rest()| == FRAME_HEADER
    modifies reader
    ensures reader.Valid()
    ensures match GetFrameKind(old(reader.Rest()))
            case Ok(p) => r == Ok(p.value) && reader.Rest() == p.rest
            case Err(e) => r == Err(e)
  {
    hide GetU32, GetU16;
    LengthsOfKind(reader.Rest());
    var magic := reader.U32();
    if magic.value != FRAME_MAGIC {
      return Err(MalformedFrame);
    }
    var version := reader.U16();
    if version.value != WIRE_VERSION {
      return Err(FrameVersion);
    }
    var kind := reader.U16();
    if kind.value < 1 || kind.value > 24 {
      return Err(MalformedFrame);
    }
    var flags := reader.U16();
    if flags.value != 0 {
      return Err(MalformedFrame);
    }
    return Ok(kind.value);
  }

  lemma LengthsOfKind(b: Bytes)
    requires |b| == FRAME_HEADER
    ensures GetU32(b).Ok? && GetU16(GetU32(b).value.rest).Ok? && GetU16(GetU16(GetU32(b).value.rest).value.rest).Ok?
    ensures GetU16(GetU16(GetU16(GetU32(b).value.rest).value.rest).value.rest).Ok?
    ensures |GetU16(GetU16(GetU16(GetU32(b).value.rest).value.rest).value.rest).value.rest| == 68
  {
    hide LittleValue;
  }
}
