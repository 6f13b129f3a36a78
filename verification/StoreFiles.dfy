/** The store's two files, saved to and loaded from: every way a save can fail leaves the image
    either as it was or wholly replaced. */
module StoreFiles {
  import opened Basics
  import opened Model
  import opened DurableCodec
  import opened Validator
  import opened Watermark
  import opened Image
  import opened Settlement

  /** The operating-system call that fails, if one does. */
  datatype Fault = NoFault | TempFails | ReplaceFails | MarkTempFails | MarkReplaceFails

  /** The watermark file says this epoch; no file says zero. */
  predicate Marks(file: Option<Bytes>, epoch: U64) {
    if file.None? then epoch == 0 else file == Some(Written(epoch))
  }

  lemma WrittenReads(epoch: U64)
    ensures var i := FirstNewline(Written(epoch));
            && i < |Written(epoch)| && Trimmed(Written(epoch)[..i]) == HEADER
            && Trimmed(Written(epoch)[i + 1..]) == Decimal(epoch) && Decimal(epoch) != []
            && AllDigits(Decimal(epoch)) && ValueOf(Decimal(epoch)) == epoch
  {
    hide Trimmed, Written, Decimal, ValueOf, FirstNewline;
    WrittenParts(epoch);
  }

  function MarkFailure(e: WatermarkError): StoreError {
    if e == Corrupt then CorruptStore else OverLimits
  }

  /** The image file holds exactly the image of this state. */
  predicate Holds(image: Option<Bytes>, d: DurableState) {
    image.Some? && EncodedState(d) == Ok(image.value)
  }

  function NewMark(d: DurableState): Option<Bytes> {
    Some(Written(d.epoch))
  }

  /** A save completes unless a call it makes fails; a watermark that need not move is not written. */
  predicate Completes(epoch: U64, marked: U64, fault: Fault) {
    match fault
    case NoFault => true
    case TempFails => false
    case ReplaceFails => false
    case MarkTempFails => epoch <= marked
    case MarkReplaceFails => epoch <= marked
  }

  /** What loading an image against a watermark means: a missing image is an empty store, and one
      older than the watermark is refused. */
  function Loaded(image: Option<Bytes>, marked: U64): Result<DurableState, StoreError> {
    if image.None? then Ok(BLANK)
    else
      var d :- DecodeState(image.value);
      if d.epoch < marked then Err(RollbackDetected) else Ok(d)
  }

  /** A completed save is what the next load finds, provided the state is readable. */
  lemma SavedLoads(d: DurableState, marked: U64)
    requires EncodedState(d).Ok? && marked <= d.epoch
    ensures Loaded(Some(EncodedState(d).value), marked) == Ok(d) <==> Readable(d)
  {
    hide EncodedState, DecodeState, Readable;
    StateRoundTripIff(d);
  }

  /** An image that holds a readable state is loaded exactly when the state is not of an earlier epoch
      than the watermark, and otherwise refused as a rollback; one that holds an unreadable state is
      refused. */
  lemma HeldLoadsIff(image: Option<Bytes>, d: DurableState, marked: U64)
    requires Holds(image, d)
    ensures Readable(d) ==> Loaded(image, marked) == if d.epoch >= marked then Ok(d) else Err(RollbackDetected)
    ensures !Readable(d) ==> Loaded(image, marked).Err?
  {
    hide EncodedState, DecodeState, Readable;
    StateRoundTripIff(d);
  }

  lemma HeldDecodes(image: Option<Bytes>, d: DurableState)
    requires Holds(image, d)
    ensures if Readable(d) then DecodeState(image.value) == Ok(d) else DecodeState(image.value).Err?
  {
    hide EncodedState, DecodeState, Readable;
    StateRoundTripIff(d);
  }

  lemma DecodedIsValid(image: Bytes)
    ensures DecodeState(image).Ok? ==> ValidDurable(DecodeState(image).value)
  {
    hide DecodePayload, ValidDurable, DecodeImage;
  }

  class EpochStore {
    var image: Option<Bytes>
    var mark: Option<Bytes>

    constructor ()
      ensures image.None? && mark.None?
    {
      image, mark := None, None;
    }

    /** The watermark as the reader sees it. */
    method HighestPersisted() returns (r: Result<U64, StoreError>)
      ensures forall e: U64 :: Marks(mark, e) ==> r == Ok(e)
    {
      hide FirstNewline, Trimmed, ValueOf, Written, Decimal;
      var w := ReadWatermark(mark);
      forall e: U64 | Marks(mark, e)
        ensures w == Ok(e)
      {
        WrittenReads(e);
      }
      r := if w.Ok? then Ok(w.value) else Err(MarkFailure(w.error));
    }

    /** Temp file, replace, then the watermark if the epoch is new. The watermark is read before
        anything is written. */
    method Save(d: DurableState, fault: Fault) returns (r: Result<(), StoreError>)
      modifies this
      ensures EncodedState(d).Err? || fault == TempFails || fault == ReplaceFails ==> r.Err? && image == old(image) && mark == old(mark)
      ensures image == old(image) || Holds(image, d)
      ensures mark == old(mark) || (mark == NewMark(d) && Holds(image, d))
      ensures r.Ok? ==> Holds(image, d)
      ensures forall e: U64 :: Marks(old(mark), e) && EncodedState(d).Ok? ==> (r.Ok? <==> Completes(d.epoch, e, fault))
      ensures forall e: U64 :: Marks(old(mark), e) && r.Ok? ==> mark == if d.epoch > e then NewMark(d) else old(mark)
    {
      hide EncodedState, Written;
      var previous := HighestPersisted();
      if previous.Err? {
        return Err(previous.error);
      }
      var encoded := Encode(d);
      if encoded.Err? {
        return Err(encoded.error);
      }
      if fault == TempFails || fault == ReplaceFails {
        return Err(IoFailure);
      }
      image := Some(encoded.value);
      if d.epoch > previous.value {
        if fault == MarkTempFails || fault == MarkReplaceFails {
          return Err(IoFailure);
        }
        mark := Some(Written(d.epoch));
      }
      return Ok(());
    }

    method Load() returns (r: Result<DurableState, StoreError>)
      ensures image.None? ==> r == Ok(BLANK)
      ensures forall d, e: U64 :: Marks(mark, e) && Holds(image, d) && Readable(d) ==>
                r == if d.epoch >= e then Ok(d) else Err(RollbackDetected)
      ensures forall d :: Holds(image, d) && !Readable(d) ==> r.Err?
      ensures forall e: U64 :: Marks(mark, e) && image.Some? && r.Ok? ==> ValidDurable(r.value) && r.value.epoch >= e
      ensures forall e: U64 :: Marks(mark, e) ==> r == Loaded(image, e)
    {
      hide DecodeState, EncodedState, Readable, ValidDurable;
      if image.Some? {
        forall d: DurableState | Holds(image, d)
          ensures if Readable(d) then DecodeState(image.value) == Ok(d) else DecodeState(image.value).Err?
        {
          HeldDecodes(image, d);
        }
        DecodedIsValid(image.value);
      }
      if image.None? {
        return Ok(BLANK);
      }
      var d := Decode(image.value);
      if d.Err? {
        return d;
      }
      var watermark := HighestPersisted();
      if watermark.Err? {
        return Err(watermark.error);
      }
      if d.value.epoch < watermark.value {
        return Err(RollbackDetected);
      }
      return d;
    }
  }
}
