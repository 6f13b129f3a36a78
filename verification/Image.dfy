/** The durable image: header, payload and integrity digest; and the store that saves and loads it. */
module Image {
  import opened Basics
  import opened Model
  import opened Encoding
  import opened Sha256
  import opened Codec
  import opened DurableCodec
  import opened DurableStream
  import opened Unambiguous
  import opened Validator
  import opened Undoing
  import opened Settlement

  const MAGIC: U32 := 0x46424550
  const VERSION: U32 := 1
  const HEADER_SIZE: nat := 12
  const DIGEST_SIZE: nat := 32

  /** Ceiling on a declared payload length: one gibibyte. */
  const MAX_PAYLOAD: nat := 0x4000_0000

  datatype StoreError =
    | CorruptStore | UnsupportedVersion | TooLarge | IntegrityFailure | InvalidState | Malformed | OverLimits | IoFailure
    | RollbackDetected

  // ---- the format --------------------------------------------------------

  function Header(length: U32, tail: Bytes): (b: Bytes)
    ensures |b| == HEADER_SIZE + |tail|
  {
    PutU32(MAGIC, PutU32(VERSION, PutU32(length, tail)))
  }

  function EncodeImage(payload: Bytes): (image: Bytes)
    requires |payload| < 0x1_0000_0000
    ensures |image| == HEADER_SIZE + |payload| + DIGEST_SIZE
  {
    var body := Header(|payload|, payload);
    body + Hash(body)
  }

  function DecodeImage(image: Bytes): Result<Bytes, StoreError> {
    if |image| < HEADER_SIZE then Err(CorruptStore)
    else
      var magic := GetU32(image).value;
      var version := GetU32(magic.rest).value;
      var length := GetU32(version.rest).value;
      if magic.value != MAGIC then Err(CorruptStore)
      else if version.value != VERSION then Err(UnsupportedVersion)
      else if length.value > MAX_PAYLOAD then Err(TooLarge)
      else if |image| != HEADER_SIZE + length.value + DIGEST_SIZE then Err(CorruptStore)
      else if Hash(image[..|image| - DIGEST_SIZE]) != image[|image| - DIGEST_SIZE..] then Err(IntegrityFailure)
      else Ok(image[HEADER_SIZE..|image| - DIGEST_SIZE])
  }

  lemma HeaderReads(length: U32, tail: Bytes)
    ensures var image := Header(length, tail);
            && GetU32(image) == Ok(Parsed(MAGIC, PutU32(VERSION, PutU32(length, tail))))
            && GetU32(PutU32(VERSION, PutU32(length, tail))) == Ok(Parsed(VERSION, PutU32(length, tail)))
            && GetU32(PutU32(length, tail)) == Ok(Parsed(length, tail))
            && image[HEADER_SIZE..] == tail
  {
    hide LittleBytes, LittleValue;
  }

  /** An image is read back exactly when its payload is within the ceiling. */
  lemma ImageRoundTripIff(payload: Bytes)
    requires |payload| < 0x1_0000_0000
    ensures DecodeImage(EncodeImage(payload)) == if |payload| <= MAX_PAYLOAD then Ok(payload) else Err(TooLarge)
  {
    hide GetU32, PutU32, Hash, Header;
    var body := Header(|payload|, payload);
    var digest := Hash(body);
    var image := EncodeImage(payload);
    HeaderAppends(|payload|, payload, digest);
    HeaderReads(|payload|, payload + digest);
    HeaderReads(|payload|, payload);
    assert image[..|image| - DIGEST_SIZE] == body && image[|image| - DIGEST_SIZE..] == digest;
    assert image[HEADER_SIZE..|image| - DIGEST_SIZE] == body[HEADER_SIZE..] == payload;
  }

  lemma HeaderAppends(length: U32, payload: Bytes, more: Bytes)
    ensures Header(length, payload) + more == Header(length, payload + more)
  {
    hide LittleBytes;
    Widths();
    var a, b, c := LittleBytes(MAGIC, 4), LittleBytes(VERSION, 4), LittleBytes(length, 4);
    assert a + (b + (c + payload)) + more == a + (b + (c + (payload + more)));
  }

  /** The file byte by byte: the four letters of the magic number, last letter first; the format version;
      the length of the payload; the payload; and the digest of everything before it. */
  lemma ImageLayout(payload: Bytes)
    requires |payload| < 0x1_0000_0000
    ensures var image, n := EncodeImage(payload), |payload|;
            && image[..4] == [0x50, 0x45, 0x42, 0x46] && image[4..8] == [1, 0, 0, 0]
            && LittleValue(image[8..12]) == n
            && image[12..12 + n] == payload && image[12 + n..] == Hash(image[..12 + n])
  {
    hide Hash;
    var image, n := EncodeImage(payload), |payload|;
    var a, b, c := LittleBytes(MAGIC, 4), LittleBytes(VERSION, 4), LittleBytes(n, 4);
    Widths();
    LittleRoundTrip(n, 4);
    FourDigits(MAGIC);
    FourDigits(VERSION);
    assert Header(n, payload) == a + b + c + payload;
    assert image == a + b + c + payload + Hash(Header(n, payload));
    assert image[..4] == a && image[4..8] == b && image[8..12] == c;
    assert image[..12 + n] == Header(n, payload);
  }

  lemma FourDigits(v: U32)
    ensures LittleBytes(v, 4) == [v % 256, v / 256 % 256, v / 256 / 256 % 256, v / 256 / 256 / 256]
  {
    var q := v / 256 / 256 / 256;
    assert q < 256;
    assert LittleBytes(q, 1) == [q % 256] + LittleBytes(q / 256, 0);
    assert LittleBytes(v / 256 / 256, 2) == [v / 256 / 256 % 256] + LittleBytes(q, 1);
    assert LittleBytes(v / 256, 3) == [v / 256 % 256] + LittleBytes(v / 256 / 256, 2);
  }

  /** Whatever is accepted is exactly the image of its payload: no other bytes decode to it. */
  lemma AcceptedImageIsEncoded(image: Bytes)
    requires DecodeImage(image).Ok?
    ensures var payload := DecodeImage(image).value;
            |payload| <= MAX_PAYLOAD && image == EncodeImage(payload)
  {
    hide LittleValue, LittleBytes, PutU32, Hash;
    var payload := DecodeImage(image).value;
    var digest := image[|image| - DIGEST_SIZE..];
    var magic := GetU32(image).value;
    var version := GetU32(magic.rest).value;
    var length := GetU32(version.rest).value;
    PutBackU32(image);
    PutBackU32(magic.rest);
    PutBackU32(version.rest);
    assert image == Header(length.value, length.rest);
    HeaderReads(length.value, length.rest);
    assert length.rest == image[HEADER_SIZE..] == payload + digest;
    HeaderAppends(length.value, payload, digest);
    assert image[..|image| - DIGEST_SIZE] == Header(length.value, payload);
  }

  /** Two accepted images that end in the same digest carry the same payload, or else two payloads
      that collide under the hash. */
  lemma ChangeNeedsCollision(x: Bytes, y: Bytes)
    requires |x| == |y| >= DIGEST_SIZE && x != y && DecodeImage(x).Ok? && DecodeImage(y).Ok?
    requires x[|x| - DIGEST_SIZE..] == y[|y| - DIGEST_SIZE..]
    ensures var a, b := x[..|x| - DIGEST_SIZE], y[..|y| - DIGEST_SIZE];
            a != b && Hash(a) == Hash(b)
  {
    hide LittleValue, Hash;
    assert x == x[..|x| - DIGEST_SIZE] + x[|x| - DIGEST_SIZE..];
    assert y == y[..|y| - DIGEST_SIZE] + y[|y| - DIGEST_SIZE..];
  }

  // ---- encoding and decoding states ---------------------------------------

  /** The image of a valid state, if the lengths of its texts and of its payload can be represented. */
  function EncodedState(d: DurableState): Result<Bytes, StoreError> {
    if !ValidDurable(d) then Err(InvalidState)
    else if EncodedPayload(d).Err? then Err(OverLimits)
    else if |EncodePayload(d)| >= 0x1_0000_0000 then Err(TooLarge)
    else Ok(EncodeImage(EncodePayload(d)))
  }

  method Encode(d: DurableState) returns (r: Result<Bytes, StoreError>)
    ensures r == EncodedState(d)
  {
    hide ValidDurable, DurableWrites, EncodePayload, Hash, PutU32;
    var valid := CheckDurable(d);
    if !valid {
      return Err(InvalidState);
    }
    var encoded := EncodeDurable(d);
    if encoded.Err? {
      return Err(CodecFailure(encoded.error));
    }
    var payload := encoded.value;
    if |payload| >= 0x1_0000_0000 {
      return Err(TooLarge);
    }
    var w := new ByteWriter();
    w.U32(MAGIC);
    w.U32(VERSION);
    w.U32(|payload|);
    ghost var header := w.buffer;
    w.Raw(payload);
    assert header + payload == [] + Header(|payload|, payload);
    ghost var body := w.buffer;
    assert body == Header(|payload|, payload);
    var digest := HashOf(w.buffer);
    w.Raw(digest);
    return Ok(w.buffer);
  }

  function CodecFailure(e: CodecError): StoreError {
    if e == BadInput then Malformed else OverLimits
  }

  function DecodeState(image: Bytes): Result<DurableState, StoreError> {
    var payload :- DecodeImage(image);
    match DecodePayload(payload)
    case Err(e) => Err(CodecFailure(e))
    case Ok(d) => if ValidDurable(d) then Ok(d) else Err(InvalidState)
  }

  method Decode(image: Bytes) returns (r: Result<DurableState, StoreError>)
    ensures r == DecodeState(image)
  {
    hide ValidDurable, DecodePayload, Hash, DecodeState, GetU32;
    DecodesInParts(image);
    if |image| < HEADER_SIZE {
      return Err(CorruptStore);
    }
    FourBytes(image);
    var reader := new ByteReader(image);
    var magic := reader.U32();
    var version := reader.U32();
    var length := reader.U32();
    if magic.value != MAGIC {
      return Err(CorruptStore);
    }
    if version.value != VERSION {
      return Err(UnsupportedVersion);
    }
    if length.value > MAX_PAYLOAD {
      return Err(TooLarge);
    }
    if |image| != HEADER_SIZE + length.value + DIGEST_SIZE {
      return Err(CorruptStore);
    }
    var computed := HashOf(image[..|image| - DIGEST_SIZE]);
    if computed != image[|image| - DIGEST_SIZE..] {
      return Err(IntegrityFailure);
    }
    var d := DecodeDurable(image[HEADER_SIZE..|image| - DIGEST_SIZE]);
    if d.Err? {
      return Err(CodecFailure(d.error));
    }
    var valid := CheckDurable(d.value);
    if !valid {
      return Err(InvalidState);
    }
    return Ok(d.value);
  }

  lemma DecodesInParts(image: Bytes)
    ensures |image| < HEADER_SIZE ==> DecodeState(image) == Err(CorruptStore)
    ensures forall magic, version, length ::
              |image| >= HEADER_SIZE && GetU32(image) == Ok(magic) && GetU32(magic.rest) == Ok(version) && GetU32(version.rest) == Ok(length) ==>
                DecodeState(image) ==
                if magic.value != MAGIC then Err(CorruptStore)
                else if version.value != VERSION then Err(UnsupportedVersion)
                else if length.value > MAX_PAYLOAD then Err(TooLarge)
                else if |image| != HEADER_SIZE + length.value + DIGEST_SIZE then Err(CorruptStore)
                else if Hash(image[..|image| - DIGEST_SIZE]) != image[|image| - DIGEST_SIZE..] then Err(IntegrityFailure)
                else
                  var d := DecodePayload(image[HEADER_SIZE..|image| - DIGEST_SIZE]);
                  if d.Err? then Err(CodecFailure(d.error)) else if ValidDurable(d.value) then Ok(d.value) else Err(InvalidState)
  {
    hide ValidDurable, DecodePayload, Hash, LittleValue;
  }

  lemma FourBytes(image: Bytes)
    requires |image| >= HEADER_SIZE
    ensures GetU32(image).Ok? && GetU32(GetU32(image).value.rest).Ok?
    ensures GetU32(GetU32(GetU32(image).value.rest).value.rest).Ok?
  {
    hide LittleValue;
  }

  /** A state can be read back from its image. */
  predicate Readable(d: DurableState) {
    DurableFits(d) && TransitionsMeetDemand(d) && |EncodePayload(d)| <= MAX_PAYLOAD
  }

  /** Durable round trip, image and payload together: what was encoded decodes to the state it was
      encoded from exactly when that state is readable, and is refused otherwise. */
  lemma StateRoundTripIff(d: DurableState)
    requires EncodedState(d).Ok?
    ensures var r := DecodeState(EncodedState(d).value); if Readable(d) then r == Ok(d) else r.Err?
  {
    hide ValidDurable, DurableFits, DurableWrites, DecodePayload, EncodePayload, TransitionsMeetDemand, DecodeImage, EncodeImage;
    var payload := EncodePayload(d);
    ImageRoundTripIff(payload);
    if DurableFits(d) {
      PayloadRoundTripIff(d);
    } else if |payload| <= MAX_PAYLOAD {
      NeverMisread(d);
      AcceptedFits(payload);
    }
  }

  /** A coordinator configured without provenance: its first start leaves a payload that decodes, its
      second start one that does not. */
  lemma SecondStartUnreadable(o: Options, boot: Id, first: Id, again: Id, second: Id)
    requires o.provenance == [] && o.limits.maxTransitionHistory >= 2
    ensures var d1 := AdvanceAt(o, BLANK, boot, CoordinatorStart, false, first);
            && DurableFits(d1) && DecodePayload(EncodePayload(d1)) == Ok(d1)
            && var d2 := AdvanceAt(o, d1, again, CoordinatorRestart, true, second);
               && DurableFits(d2) && DecodePayload(EncodePayload(d2)) == Err(BadInput)
  {
    hide DecodePayload, EncodePayload;
    var d1 := AdvanceAt(o, BLANK, boot, CoordinatorStart, false, first);
    var d2 := AdvanceAt(o, d1, again, CoordinatorRestart, true, second);
    assert |d1.transitions| == 1 && d1.transitions[0].provenance == [];
    assert d2.transitions == d1.transitions + [d2.transitions[1]] && d2.transitions[1].provenance == [];
    assert d1.participants == [] && d2.participants == [];
    PayloadRoundTripIff(d1);
    EnoughProvenance(d1);
    TwoRestartsUnreadable(d2);
  }
}
