/** Saving and loading as steps that a crash can interrupt anywhere: what a reload finds, and why
    no coordinator ever exposes an epoch that an earlier one exposed. */
module Store {
  import opened Basics
  import opened Model
  import opened Authority
  import opened Canonical
  import opened Invariant
  import opened Preservation
  import opened Batch
  import opened Stale
  import opened Retirement
  import opened Runs
  import opened Undoing
  import opened Refinement
  import opened Validator
  import opened Settlement
  import opened Codec
  import opened DurableCodec
  import opened Image
  import opened StoreFiles
  import opened Fitting
  import Completeness

  /** The image file, and the epoch in the watermark file; a missing watermark reads as zero. */
  datatype Disk = Disk(image: Option<Bytes>, watermark: U64)

  /** How far a save has come. The temporary files it writes first are invisible to a reload. */
  datatype Stage = Prepared | TempWritten | ImageReplaced | MarkWritten | MarkReplaced

  /** A save under way: the state it writes, the watermark it read before writing anything, and
      whether it belongs to the opening of the store. */
  datatype Save = Save(next: DurableState, before: U64, stage: Stage, opening: bool)

  datatype Process = Down | Running(state: DurableState) | Saving(state: DurableState, save: Save)

  /** `written` is the state the image was made from, `acked` what the last completed save wrote,
      `unacked` what has reached the image since, and `exposed` every epoch a running coordinator has
      answered under. */
  datatype System = System(disk: Disk, process: Process, written: DurableState, acked: DurableState, unacked: set<DurableState>,
                           exposed: set<U64>)

  const EMPTY: System := System(Disk(None, 0), Down, BLANK, BLANK, {}, {})

  datatype Event =
    | Starts(boot: Id, transition: Id)
    | Begins(op: Op, next: DurableState)
    | WritesTemp | ReplacesImage | WritesMark | ReplacesMark
    | Acknowledges
    | Throws(after: Option<DurableState>)
    | Crashes

  function Reload(disk: Disk): Result<DurableState, StoreError> {
    Loaded(disk.image, disk.watermark)
  }

  predicate NeedsMark(s: Save) {
    s.next.epoch > s.before
  }

  predicate Saved(s: Save) {
    s.stage == MarkReplaced || (s.stage == ImageReplaced && !NeedsMark(s))
  }

  predicate OnDisk(stage: Stage) {
    stage == ImageReplaced || stage == MarkWritten || stage == MarkReplaced
  }

  /** The vector a coordinator saves on opening what it loaded. */
  ghost predicate Opens(o: Options, d: DurableState, boot: Id, transition: Id, next: DurableState) {
    && d.epoch < U64_MAX && d.generation < U64_MAX
    && (DistinctParticipants(d.participants) ==> FreshTransitionId(Abs(d), transition))
    && next == Canonicalized(AdvanceAt(o, d, boot, if d.epoch != 0 then CoordinatorRestart else CoordinatorStart, d.epoch != 0, transition))
  }

  /** From a valid vector, an operation leads to the vector of what the runtime performs. Of a misjudged
      batch, and from any other vector, which only such a batch or a failed save can leave, nothing is
      assumed but that epochs do not go back. */
  ghost predicate Leads(o: Options, s: DurableState, op: Op, next: DurableState) {
    if ValidState(o, s) && Judged(o, Abs(s), op) then Carries(o, s, op, next) else next.epoch >= s.epoch
  }

  ghost predicate Carries(o: Options, s: DurableState, op: Op, next: DurableState)
    requires ValidState(o, s)
  {
    && FreshFor(Abs(s), op) && Judged(o, Abs(s), op)
    && SortedById(next.participants) && DistinctParticipants(next.participants)
    && Perform(o, Abs(s), op) == Some(Abs(next))
  }

  /** One step of the system. An operation that changes nothing reaches no file; one whose result the
      encoder refuses can only throw. A save that throws leaves on disk whatever has reached it, and
      either no process or one that goes on from what its undo left, in the epoch it was in; a crash
      leaves no process. */
  ghost predicate Steps(o: Options, x: System, e: Event, y: System) {
    hide Opens, Leads, Progresses, Reload;
    match e
    case Starts(boot, t) =>
      && x.process.Down? && Reload(x.disk).Ok? && y.process.Saving?
      && Opens(o, Reload(x.disk).value, boot, t, y.process.save.next)
      && y == x.(process := Saving(Reload(x.disk).value, Save(y.process.save.next, x.disk.watermark, Prepared, true)))
    case Begins(op, next) =>
      && x.process.Running? && !op.DoReopen? && Leads(o, x.process.state, op, next)
      && y == if next == x.process.state then x
              else x.(process := Saving(x.process.state, Save(next, x.disk.watermark, Prepared, false)))
    case Crashes => y == x.(process := Down)
    case _ => x.process.Saving? && Progresses(x, x.process.state, x.process.save, e, y)
  }

  /** A step of the save under way, or its end. */
  predicate Progresses(x: System, base: DurableState, s: Save, e: Event, y: System) {
    match e
    case WritesTemp =>
      && s.stage == Prepared && EncodedState(s.next).Ok?
      && y == x.(process := Saving(base, s.(stage := TempWritten)))
    case ReplacesImage =>
      && s.stage == TempWritten && EncodedState(s.next).Ok?
      && y == x.(disk := x.disk.(image := Some(EncodedState(s.next).value)), written := s.next, unacked := x.unacked + {s.next},
                 process := Saving(base, s.(stage := ImageReplaced)))
    case WritesMark =>
      s.stage == ImageReplaced && NeedsMark(s) && y == x.(process := Saving(base, s.(stage := MarkWritten)))
    case ReplacesMark =>
      && s.stage == MarkWritten
      && y == x.(disk := x.disk.(watermark := s.next.epoch), process := Saving(base, s.(stage := MarkReplaced)))
    case Acknowledges =>
      Saved(s) && y == x.(process := Running(s.next), acked := s.next, unacked := {}, exposed := x.exposed + {s.next.epoch})
    case Throws(after) =>
      && !Saved(s) && (after.Some? ==> !s.opening && after.value.epoch == base.epoch)
      && y == x.(process := if after.Some? then Running(after.value) else Down)
    case _ => false
  }

  // ---- what every step keeps ---------------------------------------------

  predicate ImageHolds(image: Option<Bytes>, d: DurableState) {
    if image.None? then d == BLANK else EncodedState(d) == Ok(image.value)
  }

  predicate DiskSound(x: System) {
    && ImageHolds(x.disk.image, x.written)
    && (x.written == x.acked || x.written in x.unacked)
    && (forall u :: u in x.unacked ==> u.epoch >= x.acked.epoch)
    && x.disk.watermark <= x.written.epoch
    && forall e :: e in x.exposed ==> e <= x.acked.epoch
  }

  predicate SaveSound(x: System, base: DurableState, s: Save) {
    && (s.stage != Prepared ==> EncodedState(s.next).Ok?)
    && (if s.opening then s.next.epoch > x.acked.epoch
        else base.epoch == x.acked.epoch != 0 && (EncodedState(s.next).Ok? ==> s.next.epoch >= base.epoch))
    && (OnDisk(s.stage) ==> x.written == s.next)
    && (if s.stage == MarkReplaced then x.disk.watermark == s.next.epoch
        else x.disk.watermark == s.before && (!s.opening ==> s.before <= base.epoch))
    && (EncodedState(s.next).Ok? ==> s.before <= s.next.epoch)
  }

  predicate ProcessSound(x: System) {
    match x.process
    case Down => true
    case Running(s) => s.epoch == x.acked.epoch != 0 && x.disk.watermark <= s.epoch
    case Saving(s, save) => SaveSound(x, s, save)
  }

  predicate Sound(x: System) {
    DiskSound(x) && ProcessSound(x)
  }

  /** A reload finds what was written, or nothing. */
  lemma ReloadFinds(x: System)
    requires DiskSound(x)
    ensures Reload(x.disk).Ok? <==> x.disk.image.None? || Readable(x.written)
    ensures Reload(x.disk).Ok? ==> Reload(x.disk).value == x.written
    ensures Reload(x.disk).Err? ==> Reload(x.disk).error != RollbackDetected
  {
    hide EncodedState, DecodeState, Readable;
    if x.disk.image.Some? {
      StateRoundTripIff(x.written);
      DecodingNeverRollsBack(x.disk.image.value);
    }
  }

  lemma DecodingNeverRollsBack(image: Bytes)
    ensures DecodeState(image).Err? ==> DecodeState(image).error != RollbackDetected
  {
    hide DecodePayload, ValidDurable, Sha256.Hash;
  }

  lemma OpeningAdvances(o: Options, d: DurableState, boot: Id, t: Id, next: DurableState)
    requires Opens(o, d, boot, t, next)
    ensures next.epoch == d.epoch + 1
  {
  }

  /** What the runtime performs from a valid vector, if the validator lets it through, is valid again
      and not of an earlier epoch. */
  lemma CarriedIsValid(o: Options, s: DurableState, op: Op, next: DurableState)
    requires ValidState(o, s) && Carries(o, s, op, next) && ValidDurable(next)
    ensures ValidState(o, next) && next.epoch >= s.epoch
    ensures Apply(o, Abs(s), op) == Some(Abs(next))
  {
    hide Inv, DistinctParticipants, SortedById, ToMap, BootsUnique, ValidDurable, FreshFor, Apply, Perform, Judged, Forward, Misled, ViableOptions, EpochClears;
    PerformedApplies(o, s, op, next);
    OperationKeeps(o, Abs(s), op, Abs(next));
    Ahead(Abs(s), Abs(next));
    AcceptsIff(o, next);
  }

  lemma PerformedApplies(o: Options, s: DurableState, op: Op, next: DurableState)
    requires ValidState(o, s) && Carries(o, s, op, next) && ValidDurable(next)
    ensures Apply(o, Abs(s), op) == Some(Abs(next))
  {
    hide Inv, DistinctParticipants, SortedById, ToMap, BootsUnique, ValidDurable, FreshFor, RegisterBatch, RegisterBatchThrough, Retire, RetireThrough, RetireMisjudged, Retires, BatchJudged, ViableOptions;
    match op
    case DoBatch(reqs) => JudgedBatch(o, Abs(s), reqs);
    case DoRetire(req) =>
      if Retires(Abs(s), req) && RetireMisjudged(o, Abs(s), req.participant) {
        Completeness.MisjudgedIsRefused(o, Abs(s), op, next);
        assert false;
      } else {
        JudgedRetirement(o, Abs(s), req);
      }
    case _ =>
  }

  lemma Ahead(s: State, next: State)
    requires Forward(s, next)
    ensures next.epoch >= s.epoch
  {
  }

  lemma EncodedIsValid(d: DurableState)
    requires EncodedState(d).Ok?
    ensures ValidDurable(d)
  {
    hide ValidDurable;
  }

  lemma LeadsOnwards(o: Options, s: DurableState, op: Op, next: DurableState)
    requires Leads(o, s, op, next) && EncodedState(next).Ok?
    ensures next.epoch >= s.epoch
  {
    hide ValidState, Carries, EncodedState, Judged;
    EncodedIsValid(next);
    if ValidState(o, s) {
      ValidStateFacts(o, s);
      if Judged(o, Abs(s), op) {
        CarriedIsValid(o, s, op, next);
      }
    }
  }

  /** Crash safety, as an invariant: every step of every event keeps the system sound. */
  lemma StepsKeepSound(o: Options, x: System, e: Event, y: System)
    requires Sound(x) && Steps(o, x, e, y)
    ensures Sound(y)
  {
    hide EncodedState, Reload, Opens, Leads, Readable, Progresses;
    match e
    case Starts(boot, t) =>
      ReloadFinds(x);
      OpeningAdvances(o, Reload(x.disk).value, boot, t, y.process.save.next);
    case Begins(op, next) =>
      if EncodedState(next).Ok? {
        LeadsOnwards(o, x.process.state, op, next);
      }
    case Crashes =>
    case _ => ProgressKeepsSound(x, x.process.state, x.process.save, e, y);
  }

  lemma ProgressKeepsSound(x: System, base: DurableState, s: Save, e: Event, y: System)
    requires Sound(x) && x.process == Saving(base, s) && Progresses(x, base, s, e, y)
    ensures Sound(y)
  {
    hide EncodedState;
  }

  // ---- whole histories ---------------------------------------------------

  ghost predicate IsHistory(o: Options, trace: seq<System>, events: seq<Event>) {
    hide Steps;
    && |trace| == |events| + 1 && trace[0] == EMPTY
    && forall i :: 0 <= i < |events| ==> Steps(o, trace[i], events[i], trace[i + 1])
  }

  lemma EmptyIsSound()
    ensures Sound(EMPTY)
  {
    hide EncodedState;
  }

  lemma {:induction false} HistoriesAreSound(o: Options, trace: seq<System>, events: seq<Event>, i: nat)
    requires IsHistory(o, trace, events) && i < |trace|
    ensures Sound(trace[i])
  {
    hide Steps, Sound;
    if i == 0 {
      EmptyIsSound();
    } else {
      HistoriesAreSound(o, trace, events, i - 1);
      StepsKeepSound(o, trace[i - 1], events[i - 1], trace[i]);
    }
  }

  /** Crash safety: at every moment of every history, the image is that of the last acknowledged save
      or of one attempted since, never older than the watermark; and a reload succeeds, and finds it,
      exactly when that state is readable. */
  lemma ReloadIsSafe(o: Options, trace: seq<System>, events: seq<Event>, i: nat)
    requires IsHistory(o, trace, events) && i < |trace|
    ensures var x := trace[i];
            && (x.written == x.acked || x.written in x.unacked) && x.written.epoch >= x.acked.epoch
            && (Reload(x.disk).Ok? <==> x.disk.image.None? || Readable(x.written))
            && (Reload(x.disk).Ok? ==> Reload(x.disk).value == x.written)
            && (Reload(x.disk).Err? ==> Reload(x.disk).error != RollbackDetected)
  {
    hide Steps, Readable, Reload, ImageHolds;
    HistoriesAreSound(o, trace, events, i);
    ReloadFinds(trace[i]);
  }

  /** Nothing has reached the image since the last acknowledgement but the save in flight. */
  predicate Clean(x: System) {
    forall u :: u in x.unacked ==> x.process.Saving? && u == x.process.save.next
  }

  /** While no save throws or is cut off, the image is exactly what was acknowledged or the one save in
      flight; every acknowledgement restores that, and a crash in such a moment leaves one or the other. */
  lemma OnlyOneInFlight(o: Options, x: System, e: Event, y: System)
    requires Sound(x) && Steps(o, x, e, y)
    ensures e.Acknowledges? ==> Clean(y) && y.written == y.acked
    ensures Clean(x) && !e.Throws? && !e.Crashes? ==> Clean(y)
    ensures Clean(x) && e.Crashes? ==> y.written == y.acked || (x.process.Saving? && y.written == x.process.save.next)
  {
    hide EncodedState, Reload, Opens, Leads, ImageHolds;
  }

  /** Epoch uniqueness: a coordinator that completes its opening exposes an epoch strictly above
      every epoch exposed before it, whatever crashed or threw in between. */
  lemma OpeningExposesANewEpoch(o: Options, trace: seq<System>, events: seq<Event>, i: nat)
    requires IsHistory(o, trace, events) && i < |events|
    requires events[i].Acknowledges? && trace[i].process.Saving? && trace[i].process.save.opening
    ensures var epoch := trace[i + 1].process.state.epoch;
            && trace[i + 1].process.Running? && epoch in trace[i + 1].exposed
            && forall e :: e in trace[i].exposed ==> e < epoch
  {
    hide EncodedState, ImageHolds, Opens, Leads, Reload;
    HistoriesAreSound(o, trace, events, i);
    assert Steps(o, trace[i], events[i], trace[i + 1]);
  }

  /** The watermark never runs ahead of the image or of a running coordinator. */
  lemma WatermarkNeverAhead(o: Options, trace: seq<System>, events: seq<Event>, i: nat)
    requires IsHistory(o, trace, events) && i < |trace|
    ensures trace[i].disk.watermark <= trace[i].written.epoch
    ensures trace[i].process.Running? ==> trace[i].disk.watermark <= trace[i].process.state.epoch
  {
    hide Steps, EncodedState, ImageHolds;
    HistoriesAreSound(o, trace, events, i);
  }

  // ---- histories that stop at a failed save -------------------------------

  /** No process goes on after a save that threw, every request fits, and no batch is misjudged; under
      explicit fencing none can be. */
  ghost predicate StopsAndFits(o: Options, trace: seq<System>, events: seq<Event>)
    requires |trace| == |events| + 1
  {
    forall i :: 0 <= i < |events| ==> Stops(o, trace[i], events[i])
  }

  ghost predicate Stops(o: Options, x: System, e: Event) {
    && (e.Throws? ==> e.after.None?)
    && (e.Begins? ==> OpFits(e.op) && (x.process.Running? && ValidState(o, x.process.state) ==> Judged(o, Abs(x.process.state), e.op)))
  }

  /** Valid, and well formed in every text; or nothing yet. */
  ghost predicate Proper(o: Options, d: DurableState) {
    d == BLANK || (ValidState(o, d) && StateFits(o, Abs(d)))
  }

  ghost predicate AllProper(o: Options, x: System) {
    && Proper(o, x.written) && (x.disk.image.Some? ==> x.written != BLANK)
    && match x.process
       case Down => true
       case Running(s) => s != BLANK && Proper(o, s)
       case Saving(s, save) => (!save.opening ==> s != BLANK && Proper(o, s)) && (EncodedState(save.next).Ok? ==> save.next != BLANK && Proper(o, save.next))
  }

  lemma OpenedIsProper(o: Options, d: DurableState, boot: Id, t: Id, next: DurableState)
    requires ViableOptions(o) && Proper(o, d) && Opens(o, d, boot, t, next)
    ensures next != BLANK && Proper(o, next)
  {
    hide Inv, ToMap, SortedById, BootsUnique, Canonicalized, FreshTransitionId, AdvanceAt, ViableOptions, StateFits, MutateEpoch, Settlement.Reached, ValidState;
    OpeningAdvances(o, d, boot, t, next);
    BlankFits(o);
    OpenSettles(o, d, boot, t);
    var d1 := AdvanceAt(o, d, boot, if d.epoch != 0 then CoordinatorRestart else CoordinatorStart, d.epoch != 0, t);
    ReachedSaves(o, Reopen(o, Abs(d), boot, t), d1);
    AdvanceKeepsFit(o, Abs(d), AdvanceRequest(NIL, 0, CoordinatorStart, []), t, boot);
  }

  lemma BlankFits(o: Options)
    ensures DistinctParticipants(BLANK.participants) && StateFits(o, Abs(BLANK)) && BLANK.epoch == 0
  {
  }

  lemma OperationIsProper(o: Options, s: DurableState, op: Op, next: DurableState)
    requires s != BLANK && Proper(o, s) && Leads(o, s, op, next) && EncodedState(next).Ok? && OpFits(op)
    requires ValidState(o, s) ==> Judged(o, Abs(s), op)
    ensures next != BLANK && Proper(o, next)
  {
    hide Inv, ToMap, SortedById, BootsUnique, StateFits, Carries, EncodedState, ValidDurable, Apply, OpFits, DistinctParticipants, Judged;
    EncodedIsValid(next);
    CarriedIsValid(o, s, op, next);
    OperationKeepsFit(o, Abs(s), op);
  }

  lemma StepsKeepProper(o: Options, x: System, e: Event, y: System)
    requires ViableOptions(o) && Sound(x) && AllProper(o, x) && Steps(o, x, e, y) && Stops(o, x, e)
    ensures AllProper(o, y)
  {
    hide EncodedState, Reload, Opens, Leads, Readable, Proper, ViableOptions, OpFits, ValidState, Judged;
    match e
    case Starts(boot, t) =>
      ReloadFinds(x);
      OpenedIsProper(o, x.written, boot, t, y.process.save.next);
    case Begins(op, next) =>
      if EncodedState(next).Ok? {
        OperationIsProper(o, x.process.state, op, next);
      }
    case Crashes =>
    case _ =>
  }

  lemma {:induction false} HistoriesAreProper(o: Options, trace: seq<System>, events: seq<Event>, i: nat)
    requires ViableOptions(o) && IsHistory(o, trace, events) && StopsAndFits(o, trace, events) && i < |trace|
    ensures AllProper(o, trace[i])
  {
    hide Steps, Sound, AllProper, ViableOptions, Stops;
    if i == 0 {
      EmptyIsProper(o);
    } else {
      HistoriesAreProper(o, trace, events, i - 1);
      HistoriesAreSound(o, trace, events, i - 1);
      StepsKeepProper(o, trace[i - 1], events[i - 1], trace[i]);
    }
  }

  lemma EmptyIsProper(o: Options)
    ensures AllProper(o, EMPTY)
  {
  }

  /** Crash safety, in configured terms. Where processes stop at a failed save and requests are well
      formed, what the image was made from is always a valid state of the engine, and a reload succeeds
      exactly when the decoder's demand on transitions is met and the payload is within the limit; with
      four bytes of provenance, whenever the payload is within the limit. */
  lemma ReloadSucceedsIff(o: Options, trace: seq<System>, events: seq<Event>, i: nat)
    requires ViableOptions(o) && TextFits(o.provenance) && IsHistory(o, trace, events) && StopsAndFits(o, trace, events) && i < |trace|
    requires trace[i].disk.image.Some?
    ensures var x := trace[i];
            && ValidState(o, x.written)
            && (Reload(x.disk).Ok? <==> DemandMet(o, x.written) && |EncodePayload(x.written)| <= MAX_PAYLOAD)
            && (|o.provenance| >= 4 ==> DemandMet(o, x.written))
  {
    hide Steps, Readable, Reload, ViableOptions, TextFits, ValidState, DemandMet, StateFits, EncodedState, TransitionsMeetDemand, EncodePayload, DurableFits, ToMap, Inv;
    HistoriesAreSound(o, trace, events, i);
    HistoriesAreProper(o, trace, events, i);
    ReloadFinds(trace[i]);
    ProperReads(o, trace[i].written);
  }

  lemma ProperReads(o: Options, d: DurableState)
    requires ViableOptions(o) && TextFits(o.provenance) && Proper(o, d) && d != BLANK
    ensures ValidState(o, d)
    ensures Readable(d) <==> DemandMet(o, d) && |EncodePayload(d)| <= MAX_PAYLOAD
    ensures |o.provenance| >= 4 ==> DemandMet(o, d)
  {
    hide Inv, ToMap, SortedById, BootsUnique, StateFits, TextFits, DurableFits, EncodePayload, DemandMet, TransitionsMeetDemand, DistinctParticipants, ViableOptions;
    ValidStateFacts(o, d);
    FitsDurable(o, d);
    FitsStamped(o, d);
    DemandMetIff(o, d);
  }
}
