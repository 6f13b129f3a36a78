# Fabric Epoch: a verified model

Fabric Epoch is a coordinator that decides which worker incarnation currently holds authority. It
keeps one durable state (participants, fences, grants, epoch transitions, attempt records), saves it
before it acknowledges anything, and must never confuse new authority with old.

This project models that coordinator in Dafny and proves what it is for:

* **Authority.** Once a worker incarnation has left the live set, nothing it presents is ever answered
  Current again, in any run of registrations, batches, fences, retirements, grants, revocations, epoch
  advances, lost sessions and restarts. Live authority never crosses an epoch. A delegated grant that
  validates has only live, current, covering ancestors. A retry is answered from the record of the
  first attempt and changes nothing, whether that attempt came alone or in a batch. In these runs
  operations do what the runtime does, fence lookups through the index of the last save included; a
  batch takes part if none of its elements is misjudged, which under explicit fencing none can be.
* **What each operation comes to.** Validation is given by exact conditions on the state, answer by
  answer, for tokens and for grants. A registration, a grant and an opening are then described by what
  validates afterwards: exactly the scopes asked for, under the counters answered, and nothing else
  changed. A fence, a lost session, a retirement and a revocation are described by what stops
  validating. Each request has its exact condition for taking effect and, for every refusal, its exact
  reason, which fixes the order of the checks. Retirement, revocation and incarnation floors last for
  all runs, and the coordinator a state names is always the one that opened the store last.
* **The running engine.** A class with the runtime's fields, seven maps and undo log carries out each
  operation, through the indexes, and promises what a failed save leaves in memory.
* **Durability.** The validator accepts every state an operation leaves, except that of a registration,
  alone or in a batch, whose boot another participant holds, and that of a retirement misled by its
  fence index. After a crash or failure at any point of any save, the image is that of the last
  acknowledged state or of one attempted since, and it loads exactly when that state is readable, never
  below the watermark; no coordinator exposes an epoch exposed before it. A reachable state is readable exactly when its
  transitions meet the decoder's demand and its payload is within a gibibyte; four bytes of configured
  provenance settle the former.
* **Digests and texts.** Streaming SHA-256 against FIPS 180-4, its constants from the roots of the primes
  and its first published example; the payload and the wire laid out byte by byte; snapshot and request
  digests that cover content and nothing else, the wire frame and registration request, the watermark file, identifier
  text and scope sets.

## Layout

| files | subject |
|---|---|
| `Basics`, `Model`, `Sorting` | machine integers, records and requests, sorting with a unique result |
| `Authority`, `Forest`, `Batch` | what each operation means, on a state whose participants are a map |
| `Stale`, `Retirement`, `Witnesses` | what batches and retirements do through a fence index older than the history, and exactly when that is right |
| `Invariant`, `Preservation` | the engine invariant, and that every operation keeps it |
| `Runs`, `Replay` | whole runs: dead stays dead, one epoch, attenuation, exactly-once |
| `Verdicts` | every answer of a validation, with its exact condition |
| `Effects`, `Gates`, `Answers`, `Lasting` | what each request changes, exactly when, how it is refused otherwise, and what is for good |
| `Canonical`, `Indexes`, `Undoing`, `BatchUndo`, `Revival`, `Refinement`, `Scans` | the participant vector, its indexes, the undo log |
| `Validator`, `Completeness`, `Settlement` | the durable validator, and what a save makes of each operation |
| `Consistency`, `Residue` | what the validator rules out; what a failed save leaves in memory |
| `Runtime` | the engine as a class |
| `Encoding`, `Identity`, `Scopes`, `Codec`, `DurableCodec`, `DurableStream` | the payload format, its encoder and decoder |
| `Unambiguous`, `PrefixFree`, `Fitting` | no encoding is misread, extended or cut short; what the engine reaches, the codec can carry |
| `Sha256`, `Image`, `Watermark`, `StoreFiles`, `Store` | the image, the files, and the save protocol as crashable steps |
| `Sha256Constants`, `Sha256Example` | the constants from their definition, and a published digest |
| `SnapshotDigest`, `RequestIdentity`, `Protocol` | digests and the wire |
| `Layout` | payload, frame and request, field after field |

Identifiers are 128-bit numbers read big-endian, so that numeric order is byte order. Generated
identifiers, and whether a write goes through, are parameters. The semantic digest is a parameter of
the engine; no engine theorem depends on which function it is, and `RequestIdentity` says what the actual one distinguishes.

## Where the code falls short of its comments

The code is modelled as it is. These are theorems about it:

* An undo log is said to leave memory exactly as it was (`src/runtime.cpp:103-104`). It does so exactly
  when: for a known participant, always, or with a replacement while the fence history has room; for a
  new participant, if its identifier sorts last (`Undoing.CreationRollback`); for a batch, if every
  participant it created sorts after all that were there and no fence record was forgotten (`BatchUndo.BatchRollback`);
  for a lost session, while the fence history has room; for a revocation, if nothing below the target was revoked before and the
  control table has room; for fences, grants, retirements and epoch advances, never, because the attempt
  record stays (`Undoing.RememberedAttemptSurvives`, `Undoing.AdvanceRollbackNeverExact`). A failed
  operator fence is reported as done to its retry (`Undoing.FailedFenceLooksDone`), and a refused
  registration can drop a bystander (`Undoing.RefusalLosesBystander`).
* The decoder demands 65 bytes for each transition that may take 61. With an empty provenance, which is
  the default, the second start of a coordinator writes a payload that cannot be read back
  (`Image.SecondStartUnreadable`). A reload then fails, whatever was acknowledged (`Store.ReloadIsSafe`);
  with the numbers a caller knows, `Store.ReloadSucceedsIff` says when.
* A fence lookup trusts the positions in its index, and the index is refreshed only by a save. Within one
  operation it can therefore miss a boot fenced since, or report a live boot fenced because another record
  moved to its position. A registration is not the one it should be exactly when the boot it presents, or
  the incumbent it replaces, is misread (`Stale.RegisterThroughIff`). A batch is not, element by element,
  what it should be exactly when one of its elements is misjudged (`Stale.BatchThroughIff`). A retirement
  is not exactly when, for its k-th live boot, a position filed under that boot holds, k fences later, a
  record of the participant (`Retirement.RetireThroughIff`). A batch that brings a fenced boot back to
  life, and is saved, is `Witnesses.BatchMisled`; a retirement that leaves its participant retired and
  alive, and is therefore refused by the save, is `Witnesses.RetirementMisled`.
* Binding a session under an identifier already bound leaves a boot bound to no session
  (`Runtime.BindingPairs`).
* The documented magic of an image is "FBEP" and that of a frame "FEP1" (`README.md:392`, `README.md:452`);
  written as little-endian integers, both appear last letter first (`Image.ImageLayout`, `Layout.FrameLayout`).
* A fencing floor equal to a recorded fence generation is documented as corrupt (`README.md:424-427`); the
  validator rejects only a generation above the floor, and the newest record always carries the floor itself
  (`Effects.FenceTakesAway`).
* A replayed fence reports the generation recorded first, but not the incarnation
  (`Replay.FenceIsExactlyOnce`).

## Model

| member | source | states |
|---|---|---|
| `Basics.Next` | include/fabric_epoch/identity.hpp:206-211 | the maximum has no successor, and nothing else lacks one |
| `Basics.Plus` | include/fabric_epoch/identity.hpp:217-222 | checked addition fails exactly when the sum passes 64 bits |
| `Basics.BytesLessTransitive` | include/fabric_epoch/identity.hpp:135-138 | identifier order is transitive |
| `Authority.FindIncarnation` | src/runtime.cpp:335-346 | a sequence found for a boot belongs to a live incarnation |
| `Authority.FindRecord` | src/runtime.cpp:305-322 | finds a retained record of the pair exactly when there is one |
| `Authority.Evaluate` | src/runtime.cpp:357-419 | Current exactly when the boot's first live incarnation exists and the claim, if any, names its sequence |
| `Forest.AncestorsCover` | src/runtime.cpp:1355-1399 | in the delegation forest every ancestor shares the epoch, covers the scopes, and is unrevoked if the descendant is |
| `Forest.RevocationKeepsForest` | src/runtime.cpp:1525-1550 | revoking a subtree keeps parents first, attenuation, and that a revoked parent has revoked children |
| `Forest.Cascade` | src/runtime.cpp:1525-1550 | the worklist ends and revokes exactly the target and its live descendants, leaves all else, and counts those newly revoked |
| `Preservation.RecordFenceKeeps` | src/runtime.cpp:539-723 | every fence keeps the invariant |
| `Preservation.FencingALiveBootWorks` | src/runtime.cpp:625-722 | fencing a live boot succeeds unless a counter is spent, and removes exactly that boot |
| `Preservation.LiveIsNotFenced` | src/runtime.cpp:305-333 | no live boot is reported fenced |
| `Preservation.FenceWorkerKeeps` | src/runtime.cpp:2087-2158 | an operator fence keeps the invariant |
| `Preservation.LoseSessionKeeps` | src/runtime.cpp:2190-2240 | losing a session keeps the invariant |
| `Preservation.RegisterKeeps` | src/runtime.cpp:727-1002 | a registration, replacing or not, keeps the invariant |
| `Preservation.FenceEachKeeps` | src/runtime.cpp:1664-1682 | fencing a list of live boots removes exactly those and counts them all |
| `Preservation.RetireKeeps` | src/runtime.cpp:1613-1725 | a retirement keeps the invariant |
| `Preservation.GrantKeeps` | src/runtime.cpp:1280-1451 | a grant keeps the invariant, the delegation forest included |
| `Preservation.RevokeKeeps` | src/runtime.cpp:1453-1573 | a revocation keeps the invariant |
| `Preservation.AdvanceKeeps` | src/runtime.cpp:1942-2023 | an epoch advance keeps the invariant |
| `Preservation.ReopenKeeps` | src/runtime.cpp:176-190 | opening a store keeps the invariant and takes the next epoch |
| `Batch.BatchRefinesSequence` | src/runtime.cpp:2036-2052 | with explicit fencing, a batch answers as the sequence does and leaves the same state up to the generation |
| `Batch.BatchMatchesSequence` | src/runtime.cpp:2036-2052 | the whole batch advances the generation at most once, the sequence once for each registration |
| `Runs.StepKeeps` | src/runtime.cpp:1942-2240 | every saved step, as the runtime performs it, keeps the invariant, lowers no counter, and leaves nothing live across an epoch change; of batches, those none of whose elements is misjudged |
| `Runs.FollowsApplies` | src/durable.cpp:105-115 | in a valid state such a step is the abstract operation: a retirement misled by its index would not have been saved |
| `Runs.RunsKeepInvariant` | src/runtime.cpp:727-1002 | in every state reached by saved steps whose batches are not misjudged: live boots disjoint from fenced ones, one live boot for a single-incarnation participant, extras only beside an active boot, registration and incarnation counters conserved, fence generations increasing |
| `Runs.RunsGoForward` | src/runtime.cpp:950-973 | along a run counters, floors and known participants only grow, and no issued sequence becomes live again |
| `Runs.CurrentMeansLive` | src/runtime.cpp:1006-1190 | on the token path and the grant path, Current means that very incarnation is live |
| `Runs.StaysDead` | src/runtime.cpp:660-707 | an incarnation that has left the live set stays out of it for the rest of the run |
| `Runs.DeadStaysDead` | src/runtime.cpp:1006-1190 | no later validation of a dead incarnation is Current, even once every record of its fence is pruned |
| `Runs.LiveWithinOneEpoch` | src/runtime.cpp:509-519 | an incarnation live at two points of a run was live under one epoch |
| `Runs.TokenCurrentIff` | src/runtime.cpp:1106-1190 | exactly when a token validates |
| `Runs.AncestorsOfCurrentGrant` | src/runtime.cpp:1020-1104 | when a grant validates, every ancestor is unrevoked, of the current epoch, and covers the scope asked for |
| `Verdicts.TokenVerdicts` | src/runtime.cpp:1106-1190 | on the token path each of the eight answers is given exactly under its own condition on participant, live set, fences, scopes and generations |
| `Verdicts.GrantCurrentIff` | src/runtime.cpp:1006-1104 | a grant validates exactly when the request is well put and there is such a grant, unrevoked, of this epoch, made out to that boot, covering the scope, its owner running that very incarnation, and the generation expected, if any, that of the owner or, failing that, carried by the grant |
| `Verdicts.GrantVerdicts` | src/runtime.cpp:1029-1104 | for a known grant each answer is given exactly under its own condition; it never answers that the participant retired |
| `Verdicts.UnknownGrantVerdict` | src/runtime.cpp:1020-1029 | the grant is unknown exactly when no grant has the identifier |
| `Verdicts.AnswerFields` | src/runtime.cpp:1006-1190 | the standing follows from the code; a live incarnation is named with its generation; a stale epoch is told which epoch replaced it |
| `Verdicts.StaleAnswerExplains` | src/runtime.cpp:357-419 | a stale boot is told the boot that superseded it, the epoch and the incarnation of its fence, each exactly when there is one to tell |
| `Effects.FenceTakesAway` | src/runtime.cpp:539-723 | after a fence exactly the requests held by that boot of that participant stop validating; the newest record, the floor, the ring and the answer say so |
| `Effects.FenceRequestTakesAway` | src/runtime.cpp:2087-2158 | the same of an operator fence, with its attempt remembered |
| `Effects.SessionLossTakesAway` | src/runtime.cpp:2190-2240 | the same of a lost session, which fences only where that is configured |
| `Effects.RegistrationAuthorizes` | src/runtime.cpp:917-1002 | after an accepted registration the incarnation answered is live, and of tokens of this participant exactly those of its live incarnations for the scopes asked for validate; for others nothing changes, and a single-incarnation participant runs nothing else |
| `Effects.BatchElementAuthorizes` | src/runtime.cpp:2036-2052 | the same of each element of a batch, at the end of the batch, unless a later element is of the same participant |
| `Effects.GrantAuthorizes` | src/runtime.cpp:1407-1451 | under the new grant exactly the scopes asked for validate, for that boot and incarnation; all other requests are answered as before |
| `Effects.RevocationRemoves` | src/runtime.cpp:1499-1573 | exactly the requests under the grant or a descendant of it stop validating; those still of this epoch are answered that they were revoked |
| `Effects.RetirementRemoves` | src/runtime.cpp:1657-1725 | exactly the requests held by the participant stop validating; its tokens are answered that it retired, its floor covers every sequence issued, and every registration of it is refused for that reason |
| `Effects.RetirementNotes` | src/runtime.cpp:1664-1682 | the fences of a retirement carry the administrative reason and the note of the request |
| `Effects.RegistrationNotes` | src/runtime.cpp:884-899 | the fence of a replaced incumbent is recorded as a reincarnation |
| `Effects.AdvanceStartsOver` | src/runtime.cpp:1985-2023 | after an advance nothing validates, old tokens and grants are told the new epoch, exactly those who ran something must register again, and the newest transition says from where to where, why and by whom |
| `Effects.OpeningHandsOver` | src/runtime.cpp:176-190 | an opening does the same under the new coordinator boot, with the cause a start or a restart |
| `Effects.TransitionsAreKept` | src/runtime.cpp:521-532 | the transition history takes the new record and keeps the newest of the others, in order |
| `Effects.OperationKeepsCoordinator` | src/runtime.cpp:502 | no operation but an opening changes the coordinator boot, and an opening sets its own |
| `Effects.CoordinatorIsLastOpener` | src/runtime.cpp:478-533 | along a run the coordinator boot is that of the last opening, whatever came between |
| `Effects.FirstCoordinator` | src/runtime.cpp:176-190 | and at first that of the opening of the empty store |
| `Gates.FenceTakesEffectIff` | src/runtime.cpp:2087-2158 | an operator fence takes effect exactly when it is well formed, of this epoch, of a known participant, under a new attempt, of a boot not known as fenced, and there is a live incarnation or room for a record |
| `Gates.SessionLossTakesEffectIff` | src/runtime.cpp:2190-2240 | a lost session fences exactly a boot that runs, where configured |
| `Gates.RegistrationTakesEffectIff` | src/runtime.cpp:727-1002 | the exact condition for a registration to be accepted |
| `Gates.RetirementTakesEffectIff` | src/runtime.cpp:1613-1725 | the same for a retirement, which counts the live incarnations |
| `Gates.GrantTakesEffectIff` | src/runtime.cpp:1280-1451 | a grant is made exactly when the asking incarnation is itself current for every scope and a named parent validates for every scope |
| `Gates.DelegatesIff` | src/runtime.cpp:1355-1399 | the delegation check asks of the parent exactly what validation would |
| `Gates.RevocationTakesEffectIff` | src/runtime.cpp:1453-1500 | the exact condition for a revocation |
| `Gates.AdvanceTakesEffectIff` | src/runtime.cpp:1942-1998 | the exact condition for an advance |
| `Answers.RegistrationAnswers` | README.md:182-207 | each refusal of a registration has exactly its own reason, in the documented order; a retry is recognised exactly after the checks of form, epoch, retirement and fencing; whatever is refused changes nothing |
| `Answers.FenceAnswers` | src/runtime.cpp:2087-2158 | the same for operator fences |
| `Answers.RefencingIsIdle` | README.md:288-290 | fencing again what is fenced advances nothing and is answered so |
| `Answers.RetirementAnswers` | src/runtime.cpp:1613-1663 | the same for retirements |
| `Answers.GrantAnswers` | src/runtime.cpp:1280-1406 | the same for grants |
| `Answers.RevocationAnswers` | src/runtime.cpp:1453-1500 | the same for revocations |
| `Answers.AdvanceAnswers` | src/runtime.cpp:1942-1998 | the same for advances, where alone a retry is recognised before the epoch is compared |
| `Lasting.RetiredForever` | README.md:347-350 | in the rest of any run nothing held by a retired participant validates, and every well-formed registration of it is refused as retired |
| `Lasting.RevokedForever` | README.md:283-284 | a revoked grant is never current again |
| `Lasting.FloorsNeverFall` | README.md:308-311 | along a run no incarnation floor falls |
| `Replay.RunsOnlyRemember` | src/runtime.cpp:433-439 | along a run attempt tables change only by bounded appending |
| `Replay.StillFound` | src/runtime.cpp:423-439 | a record is found while fewer newer ones entered its table than the bound |
| `Replay.RegistrationIsExactlyOnce` | src/runtime.cpp:812-844 | a retried registration, alone or in a batch, returns the recorded outcome, generation and incarnation and changes nothing |
| `Replay.BatchElementIsExactlyOnce` | src/runtime.cpp:2036-2052 | the same for a request first accepted inside a batch |
| `Replay.AdvanceIsExactlyOnce` | src/runtime.cpp:1960-1980 | a retried advance reports the epoch it reached the first time and changes nothing |
| `Replay.FenceIsExactlyOnce` | src/runtime.cpp:2120-2137 | a retried fence reports the generation of the first and changes nothing |
| `Replay.GrantIsExactlyOnce` | src/runtime.cpp:1336-1353 | a retried grant names the grant created first and creates none |
| `Replay.RetireIsExactlyOnce` | src/runtime.cpp:1640-1656 | a retried retirement reports the count of the first and changes nothing |
| `Replay.RevokeIsExactlyOnce` | src/runtime.cpp:1473-1489 | a retried revocation reports the generation and count of the first and changes nothing |
| `Replay.RetainedAttemptNeverMutates` | src/runtime.cpp:812-844 | whatever request reuses a retained attempt identifier, the state does not change |
| `Replay.RetainedControlNeverMutates` | src/runtime.cpp:1473-1489 | the same for advances and revocations |
| `Canonical.CanonicalIsUnique` | src/runtime.cpp:261-273 | two sorted vectors of the same participants are one vector |
| `Indexes.ParticipantIndexFinds` | src/runtime.cpp:284-298 | the rebuilt index finds exactly the participants there are |
| `Indexes.SumLiveIsTotal` | src/runtime.cpp:203-213 | the worker count of a rebuild is the number of live incarnations |
| `Indexes.IndexedLookupAgrees` | src/runtime.cpp:305-322 | through a rebuilt index the fence lookup finds what a scan finds, though it never rechecks the boot |
| `Stale.ThroughIff` | src/runtime.cpp:305-333 | the lookup through an older index answers fenced exactly when a position filed under the boot now holds a record of the participant, or the ring holds the boot |
| `Stale.MissedIff` | src/runtime.cpp:305-333 | while nothing is evicted it errs exactly on boots fenced since the index was filed that have left the owner's ring |
| `Stale.LiveMisreadIff` | src/runtime.cpp:305-333 | for a live boot it errs exactly when a position filed under it now holds a record of the owner |
| `Stale.RegisterThroughIff` | src/runtime.cpp:727-1002 | a registration through an older index answers and acts as it should exactly when neither its boot nor the incumbent it replaces is misread |
| `Stale.BatchThroughIff` | src/runtime.cpp:2036-2052 | every prefix of a batch is performed as it should be exactly when no element is misjudged |
| `Stale.ExplicitIsJudged` | src/runtime.cpp:2036-2052 | under explicit fencing no element can be misjudged |
| `Stale.RoomyIsJudged` | src/runtime.cpp:2036-2052 | nor where incumbents are replaced, if participants are distinct and the history has room for a fence each |
| `Retirement.RetireThroughIff` | src/runtime.cpp:1613-1725 | a retirement through the index is the one it should be exactly when no live boot's filed position holds, after the fences before it, a record of the participant; otherwise the participant is left retired and alive |
| `Retirement.RoomIsJudged` | src/runtime.cpp:1664-1682 | that cannot happen with one live boot, or with room in the history for all but the last |
| `Retirement.UnknownBootsAreJudged` | src/runtime.cpp:1664-1682 | nor when no live boot after the first occurs in the retained history |
| `Witnesses.BatchMisled` | src/runtime.cpp:727-1002 | from a valid state, a batch of three replacements ends with a boot live beside its own fence record, and the state is saved |
| `Witnesses.RetirementMisled` | src/runtime.cpp:1664-1682 | from a valid state, a retirement under a full history leaves a live boot and the participant retired |
| `Indexes.GrantIndexFinds` | src/runtime.cpp:217-222 | the grant index is a scan by identifier |
| `Indexes.GrantChildrenIndexes` | src/runtime.cpp:217-222 | the child index lists exactly the direct delegations |
| `Undoing.FenceRollback` | src/runtime.cpp:641-657 | undoing a live fence restores all but the fence history, and that exactly while it had room |
| `Undoing.UpdateRollback` | src/runtime.cpp:930-942 | undoing a re-registration is exact |
| `Undoing.CreationRollback` | src/runtime.cpp:917-929 | undoing a first registration is exact if and only if the new identifier sorts last |
| `Undoing.ReplacementRollback` | src/runtime.cpp:884-899 | undoing a replacement is exact if and only if the fence history had room |
| `Undoing.RevokeRollback` | src/runtime.cpp:1590-1609 | undoing a revocation is exact if and only if nothing below the target was revoked before and the control table had room |
| `Revival.ReviveSubtree` | src/runtime.cpp:1590-1609 | the undo worklist ends and clears exactly the target and everything delegated from it, whatever had revoked it |
| `Revival.GrantChildrenDistinct` | src/runtime.cpp:217-222 | no child is filed twice, which is why no grant is visited twice |
| `Undoing.RollbackKeepsTables` | src/runtime.cpp:113-122 | no undo but a whole-record one touches an attempt table |
| `Undoing.RollbackKeepsEpoch` | src/runtime.cpp:113-122 | no undo but that of an epoch change touches the epoch |
| `BatchUndo.RollbackPutsBack` | src/runtime.cpp:113-122 | the log of many registrations, incumbents fenced or not, drops as many records from the end as were created, whichever they are, and reverts each that is left |
| `BatchUndo.BatchRollback` | src/runtime.cpp:2036-2052 | undoing a batch is exact if and only if every participant it created sorts after all that were there and no fence record was forgotten |
| `BatchUndo.BatchLeaves` | src/runtime.cpp:2036-2052 | otherwise as many records are left as there were, each under an old name as it was, and as many fences as there were |
| `Undoing.RememberedAttemptSurvives` | src/runtime.cpp:2142-2156 | the attempt of an undone fence, grant or retirement is still remembered |
| `Undoing.FailedFenceLooksDone` | src/runtime.cpp:2120-2157 | after a failed save the boot is live and the retry is answered as fenced |
| `Undoing.AdvanceRollbackNeverExact` | src/runtime.cpp:1999-2011 | undoing an advance leaves its control attempt |
| `Undoing.RefusalLosesBystander` | src/runtime.cpp:453-464 | a refused registration that sorts first leaves itself and drops the other record |
| `Residue.FenceResidue` | src/runtime.cpp:641-657 | after a failed operator fence: the state before it, the attempt remembered, the fence history cut back to its length |
| `Residue.LostSessionResidue` | src/runtime.cpp:2232-2238 | after a failed fence of a lost session nothing is left but what a full history forgot |
| `Residue.RetirementResidue` | src/runtime.cpp:1664-1725 | the same after a failed retirement, all its fences included |
| `Residue.GrantResidue` | src/runtime.cpp:1420-1451 | after a failed grant only the memory of the attempt is left |
| `Residue.AdvanceResidue` | src/runtime.cpp:484-500 | after a failed advance the memory of the attempt, and what a full history of transitions forgot |
| `Residue.RevocationResidue` | src/runtime.cpp:1590-1609 | after a failed revocation everything below the target is unrevoked and all else is as before, but for what a full control table forgot |
| `Residue.RegistrationResidue` | src/runtime.cpp:917-949 | after a failed registration a known participant is as it was; of a new one the record that sorts last is gone |
| `Residue.CutBackIff` | src/runtime.cpp:641-657 | a history cut back to its length is what it was exactly while it had room |
| `Refinement.FenceAtRefines` | src/runtime.cpp:660-711 | the vector fence stands for the abstract one and keeps the participant index |
| `Refinement.EnrolAtRefines` | src/runtime.cpp:917-984 | enrolment on the vector stands for the abstract one and adds one worker |
| `Refinement.AdvanceAtRefines` | src/runtime.cpp:478-533 | the epoch change on the vector stands for the abstract one |
| `Refinement.CoveringLookupAgrees` | src/runtime.cpp:305-333 | an index of an older history is as good as new for any boot not fenced since |
| `Validator.CheckDurable` | src/durable.cpp:42-267 | the imperative check decides exactly the stated validity |
| `Validator.AcceptsIff` | src/durable.cpp:42-267 | an engine state is accepted if and only if no boot is live under two participants |
| `Consistency.AcceptedIsConsistent` | src/durable.cpp:42-267 | whatever is accepted names one incarnation by each live boot, runs nothing fenced or never issued, has floors and epochs that cover every record, parents that are present and unique keys; a store never established is empty |
| `Consistency.OneHolderPerBoot` | README.md:423-427 | in any accepted state two requests that validate under one boot are held by one participant and speak of one incarnation |
| `Completeness.OtherStepsKeepBootsUnique` | src/runtime.cpp:453-464 | no operation but registration can make a boot live twice |
| `Completeness.RegisterBootsIff` | src/runtime.cpp:966-975 | a registration does so exactly when it is accepted for a boot another participant holds |
| `Completeness.BatchBootsIff` | src/runtime.cpp:2036-2052 | under explicit fencing a batch makes a boot live twice exactly when it accepts an element whose boot another participant holds by then |
| `Completeness.SaveRefusesOnly` | src/durable.cpp:99-156 | from a valid state the validator refuses exactly: such a registration, such a batch, and a retirement misled by its index |
| `Settlement.ReachedSaves` | src/runtime.cpp:453-464 | what an operation put on the vector is accepted exactly when boots are unique, and is valid again |
| `Settlement.RegistrationSettles` | src/runtime.cpp:2025-2034 | the save refuses a registration exactly when its boot is held elsewhere, and the undo is exact in the cases named |
| `Settlement.RetireSettles` | src/runtime.cpp:1613-1725 | a retirement's save is refused exactly when a live boot was misread; otherwise it is the retirement it should be |
| `Settlement.StorableIff` | src/runtime.cpp:453-464 | the save's verdict depends on the state alone, not on the order of the vector |
| `Settlement.RevokeSettles` | src/runtime.cpp:1495-1573 | a revocation's save succeeds, and its undo is exact exactly in the case named |
| `Settlement.OpenSettles` | src/runtime.cpp:468-473 | the opening epoch change is undone exactly while the transition history has room |
| `Scans.ScanAttempts` | src/runtime.cpp:423-431 | the scan of an attempt table |
| `Scans.ScanIncarnation` | src/runtime.cpp:335-346 | the scan of the live set |
| `Scans.TakesOut` | src/runtime.cpp:659-675 | removing a boot from the live set promotes the oldest extra |
| `Scans.IsSorted` | src/runtime.cpp:261-270 | adjacent order decides canonical order |
| `Runtime.EpochRuntime.constructor` | src/runtime.cpp:166-182 | a runtime over a loaded state has matching indexes |
| `Runtime.EpochRuntime.Establish` | src/runtime.cpp:184-190 | opening takes the next epoch under the coordinator boot given, as `Effects.OpeningHandsOver` describes, and leaves a valid engine, or throws |
| `Runtime.EpochRuntime.RebuildIndexes` | src/runtime.cpp:194-223 | every map is what the records say |
| `Runtime.EpochRuntime.Finds` | src/runtime.cpp:284-298 | the indexed lookup finds a participant exactly when there is one, at its position |
| `Runtime.EpochRuntime.LookupFenceOf` | src/runtime.cpp:305-333 | the lookup through the index, as the code makes it |
| `Runtime.EpochRuntime.Undo` | src/runtime.cpp:104-132 | one undo action |
| `Runtime.EpochRuntime.UndoRevoked` | src/runtime.cpp:1515-1523 | the revival through the grant maps, and the target's own stamp put back |
| `Runtime.EpochRuntime.RunUndo` | src/runtime.cpp:113-122 | the log runs newest first |
| `Runtime.EpochRuntime.Persist` | src/runtime.cpp:453-464 | saved exactly when the write goes through and the validator accepts; otherwise the log has been run on the sorted vector; either way the indexes match |
| `Runtime.EpochRuntime.FenceLive` | src/runtime.cpp:625-711 | the vector fence and its undo entries, one worker fewer |
| `Runtime.EpochRuntime.RecordFence` | src/runtime.cpp:539-723 | through an index filed over any history, carries out the fence that lookup calls for |
| `Runtime.EpochRuntime.FenceWorker` | src/runtime.cpp:2087-2158 | carries out the abstract fence request; throws only for a spent counter or a failed write; a failed write leaves the memory of the attempt and as many fences as there were |
| `Runtime.EpochRuntime.ScreenRegistration` | src/runtime.cpp:727-915 | the checks before any mutation give the verdict of the lookup through the index |
| `Runtime.EpochRuntime.EnrolParticipant` | src/runtime.cpp:917-989 | throws exactly when a counter is spent; otherwise issues the next sequence and logs the undo |
| `Runtime.EpochRuntime.ApplyRegistration` | src/runtime.cpp:727-1002 | carries out the registration through the index, replacing an incumbent where configured |
| `Runtime.EpochRuntime.RegisterParticipant` | src/runtime.cpp:2025-2034 | carries out the registration whose effect is `Effects.RegistrationAuthorizes`; a refused or failed save restores the state exactly in the cases named, and otherwise leaves the state named |
| `Runtime.EpochRuntime.RegisterParticipants` | src/runtime.cpp:2036-2052 | carries out the batch through the index it began with, which is the abstract batch where no element is misjudged; after a failed save the indexes match, records with old names are as they were, and the state is restored exactly when the newcomers sort last and no fence record was forgotten |
| `Runtime.EpochRuntime.RetireParticipant` | src/runtime.cpp:1613-1725 | carries out the retirement through the index; exactly when a live boot is misread the save is refused, and otherwise it is the abstract retirement; a failed save leaves the memory of the attempt and as many fences as there were |
| `Runtime.EpochRuntime.ValidateAuthority` | src/runtime.cpp:1006-1190 | answers, through the indexes, what `Verdicts` says exactly when of |
| `Runtime.EpochRuntime.GrantAuthority` | src/runtime.cpp:1280-1451 | carries out the grant whose effect is `Effects.GrantAuthorizes`, under the condition `Gates.GrantTakesEffectIff`; a failed save leaves the memory of the attempt and nothing else |
| `Runtime.EpochRuntime.RevokeAuthority` | src/runtime.cpp:1453-1573 | carries out the abstract revocation; a failed save leaves the whole subtree unrevoked, and is undone exactly in the case named |
| `Runtime.EpochRuntime.AdvanceEpoch` | src/runtime.cpp:1942-2023 | carries out the abstract advance; a failed save leaves the memory of the attempt and whatever a full history of transitions forgot |
| `Runtime.EpochRuntime.BindSession` | src/runtime.cpp:2165-2188 | binds exactly the live, unbound incarnation of the current epoch, within the limit; pairing is kept if and only if the session identifier is new |
| `Runtime.EpochRuntime.CloseSession` | src/runtime.cpp:2190-2240 | unbinds the session and fences its incarnation if still live; a failed save is undone exactly while the fence history has room, and otherwise but for the fences forgotten |
| `Runtime.OneSessionPerBoot` | src/runtime.cpp:2178-2181 | while sessions and boots pair, no two sessions hold one boot |
| `Sorting.OrderedIsUnique` | src/runtime.cpp:271-272 | a sorted arrangement is unique |
| `Sorting.SortIgnoresOrder` | src/codec.cpp:507-515 | sorting does not depend on the order presented |
| `Encoding.LittleRoundTrip` | src/encoding.cpp:22-37 | little-endian digits give the number back |
| `Encoding.LittleInverse` | src/encoding.cpp:66-88 | and the number its digits |
| `Encoding.PutText` | src/encoding.cpp:47-53 | a length-prefixed text reads back under any bounds it meets |
| `Encoding.PutBackText` | src/encoding.cpp:110-125 | a text that was read is what the bytes encode |
| `Encoding.ByteWriter.Little` | src/encoding.cpp:27-37 | the shift loop writes the little-endian digits |
| `Encoding.ByteWriter.Text` | src/encoding.cpp:47-53 | appends the encoding, or refuses a text too long for its length field |
| `Encoding.ByteReader.Little` | src/encoding.cpp:66-88 | the shift loop reads exactly the integer the format says, or reports truncation |
| `Encoding.ByteReader.Text` | src/encoding.cpp:110-125 | reads a text within all three bounds, or reports which failed |
| `Identity.ChecksIdentifier` | src/identity.cpp:45-58 | decides exactly the identifier rules |
| `Identity.ToHex` | src/identity.cpp:79-89 | fills in the lower-case hexadecimal form |
| `Identity.ParseHex16` | src/identity.cpp:91-105 | accepts exactly 32 hexadecimal digits, and the bytes print as the lower-case text |
| `Identity.HexNames` | src/identity.cpp:79-105 | no two identifiers share a hexadecimal form, and that form parses |
| `Scopes.LowerBound` | src/scope.cpp:73-76 | halving finds the boundary of the sorted vector |
| `Scopes.ScopeSet.Insert` | src/scope.cpp:73-83 | adds exactly the scope unless full, keeping the vector canonical |
| `Scopes.ScopeSet.Contains` | src/scope.cpp:85-88 | membership |
| `Scopes.ScopeSet.ContainsAll` | src/scope.cpp:90-97 | inclusion |
| `Scopes.CanonicalScopesUnique` | src/scope.cpp:66-83 | members determine the canonical vector |
| `Codec.ListRoundTrip` | src/codec.cpp:180-224 | a list of readable elements reads back, and takes at least its minimum |
| `Codec.CountedRoundTripIff` | src/codec.cpp:447-449 | a counted list reads back exactly when its bytes meet the size demanded |
| `Codec.ScopesRoundTrip` | src/codec.cpp:72-108 | canonical scope sets survive the trip |
| `Codec.AcceptedScopesWell` | src/codec.cpp:80-108 | whatever scope set is accepted is strictly increasing and well formed |
| `Codec.PutBackScopes` | src/codec.cpp:80-108 | an accepted scope set is what the bytes encode |
| `DurableCodec.PutAttempt` | src/codec.cpp:215-223 | an attempt record takes 83 bytes and reads back |
| `DurableCodec.ParticipantRoundTrip` | src/codec.cpp:181-224 | a participant reads back, and takes at least the 32 bytes demanded |
| `DurableCodec.PutFence` | src/codec.cpp:227-235 | a fence takes at least 50 bytes, one more than demanded, and reads back |
| `DurableCodec.GrantRoundTrip` | src/codec.cpp:238-262 | a grant takes at least 110 bytes, more than demanded, and reads back |
| `DurableCodec.PutTransition` | src/codec.cpp:264-273 | a transition takes 61 bytes and its provenance, and reads back |
| `DurableCodec.TransitionsRoundTripIff` | src/codec.cpp:443-449 | the transition list reads back exactly when 65 bytes each fit what is left |
| `DurableCodec.PayloadRoundTripIff` | src/codec.cpp:172-492 | decoding an encoded state gives it back if and only if its transitions meet the decoder's demand |
| `DurableCodec.EnoughProvenance` | src/codec.cpp:447-449 | four bytes of provenance, enough control attempts, or a single transition suffice |
| `DurableCodec.TwoRestartsUnreadable` | src/codec.cpp:447-449 | two transitions without provenance and no control attempt do not decode |
| `DurableCodec.AcceptedFits` | src/codec.cpp:289-492 | whatever is decoded has well-formed texts, canonical scopes and counts within the ceilings |
| `Unambiguous.NeverMisread` | src/codec.cpp:172-492 | whatever state is encoded, well formed or not, its payload decodes to that state or not at all |
| `PrefixFree.TrailingBytesRefused` | src/codec.cpp:490 | any bytes after an accepted payload make it refused |
| `PrefixFree.TruncationRefused` | src/codec.cpp:289-492 | no proper beginning of an accepted payload is accepted |
| `Layout.PayloadLayout` | src/codec.cpp:172-287 | the payload is the counters and five counted lists, each record the concatenation of its fields in order |
| `Layout.CodesInOrder` | include/fabric_epoch/fence.hpp:15-24 | each enumeration is coded by its place in the documented order |
| `Fitting.OperationKeepsFit` | src/runtime.cpp:727-2240 | every operation keeps texts, scope sets and provenance well formed, given well-formed requests |
| `Fitting.FitsDurable` | src/codec.cpp:289-492 | a valid state so kept is one the codec carries: every text, scope set and count is within its bounds |
| `Fitting.DemandMetIff` | src/codec.cpp:447-449 | in a run the transition demand is a matter of the provenance length and the numbers of transitions and control attempts |
| `Fitting.ReachableReadableIff` | src/store.cpp:251-295 | a reachable state is read back from its image exactly when that demand is met and the payload is within a gibibyte |
| `DurableStream.EncodeDurable` | src/codec.cpp:172-287 | the encoder's loops write the format, and refuse exactly a text too long for its length field |
| `DurableStream.DecodeDurable` | src/codec.cpp:289-492 | the decoder's loops read the format, with the same refusals |
| `Sha256.Hasher.Compress` | src/sha256.cpp:38-87 | one block through the compression function |
| `Sha256.Hasher.Update` | src/sha256.cpp:89-133 | the state depends only on the message absorbed, however it was cut |
| `Sha256.Hasher.Finish` | src/sha256.cpp:144-166 | the padding loop ends, and the digest is that of the padded message |
| `Sha256.HashOf` | src/sha256.cpp:168-178 | one-shot hashing, by the function `Sha256Constants` and `Sha256Example` tie to the standard |
| `Sha256.HashInTwo` | src/sha256.cpp:109-116 | whole blocks can be absorbed in any two parts |
| `Sha256.PaddingIsInjective` | src/sha256.cpp:144-156 | within the standard's length no two messages pad alike |
| `Sha256Constants.RoundConstantsAreCubeRoots` | src/sha256.cpp:14-22 | each round constant is the first 32 bits of the fractional part of the cube root of the prime of its number |
| `Sha256Constants.InitialWordsAreSquareRoots` | src/sha256.cpp:38-40 | each initial word is the first 32 bits of the fractional part of the square root of one of the first eight primes |
| `Sha256Example.DigestIs` | src/sha256.cpp:43-87 | the message "abc" hashes to the digest published with the standard |
| `Watermark.ParseDigits` | src/store.cpp:365-376 | the overflow guard refuses a digit string exactly when its value passes 64 bits, and otherwise the value is exact |
| `Watermark.Trim` | src/store.cpp:210-220 | blanks go from both ends |
| `Watermark.ReadWatermark` | src/store.cpp:343-377 | a missing file is zero; otherwise header, then digits, or an error |
| `Watermark.WrittenParts` | src/store.cpp:379-392 | the written form is the header and the digits of its epoch |
| `Watermark.WriteThenRead` | src/store.cpp:343-392 | every 64-bit epoch is read back as written |
| `Image.ImageRoundTripIff` | src/store.cpp:251-295 | an image is read back exactly when its payload is within a gibibyte |
| `Image.AcceptedImageIsEncoded` | src/store.cpp:268-295 | an accepted image is exactly the image of its payload |
| `Image.ImageLayout` | src/store.cpp:251-266 | the file byte by byte: magic, version 1, payload length, payload, digest of all before it |
| `Image.ChangeNeedsCollision` | src/store.cpp:287-290 | an image altered under the same digest is accepted only with a hash collision |
| `Image.Encode` | src/store.cpp:251-266 | validates, encodes, and seals the image, or refuses for validity, text length or payload length |
| `Image.Decode` | src/store.cpp:268-295 | the checks of the decoder, in order |
| `Image.StateRoundTripIff` | src/store.cpp:251-295 | a saved state is read back exactly when it is readable |
| `Image.SecondStartUnreadable` | src/runtime.cpp:521-532 | without provenance the first start is readable and the second is not |
| `StoreFiles.EpochStore.Save` | src/store.cpp:315-341 | whichever call fails, the image is untouched or wholly replaced, and the watermark moves only after it |
| `StoreFiles.EpochStore.Load` | src/store.cpp:297-313 | a missing image is an empty store; a readable one is returned if and only if its epoch is not below the watermark, and refused as rolled back otherwise; whatever is returned is never below the watermark |
| `StoreFiles.HeldLoadsIff` | src/store.cpp:297-313 | an image that holds a readable state is returned exactly when that state is not of an epoch below the watermark; one that holds an unreadable state is refused |
| `StoreFiles.SavedLoads` | src/store.cpp:297-341 | a completed save is what the next load finds |
| `Store.StepsKeepSound` | src/store.cpp:315-341 | every step, failure and crash keeps the disk sound, also when a process goes on from an inexact undo |
| `Store.CarriedIsValid` | src/runtime.cpp:453-464 | from a valid vector, what the runtime performs and the encoder accepts is valid again and of no earlier epoch |
| `Store.ReloadIsSafe` | src/store.cpp:297-341 | at every moment the image is that of the last acknowledged state or one attempted since, never older than the watermark, and a reload succeeds, and finds it, exactly when that state is readable |
| `Store.ReloadSucceedsIff` | src/store.cpp:297-341 | where processes stop at a failed save and no batch is misjudged, the state in the image is always valid, and a reload succeeds exactly when the transition demand is met and the payload is within a gibibyte |
| `Store.OnlyOneInFlight` | src/store.cpp:315-341 | between acknowledgements without failures, it finds the acknowledged state or the one in flight |
| `Store.OpeningExposesANewEpoch` | src/runtime.cpp:176-190 | a completed opening exposes an epoch above every epoch exposed before |
| `Store.WatermarkNeverAhead` | src/store.cpp:338-340 | the watermark never passes the image |
| `SnapshotDigest.PreimageIff` | src/codec.cpp:498-577 | two snapshots have one preimage exactly when the same content is covered |
| `SnapshotDigest.DigestIgnoresOrder` | src/codec.cpp:498-577 | with distinct keys, exactly when they hold the same records in any order, up to notes and counters |
| `SnapshotDigest.ComputeDigest` | src/codec.cpp:498-577 | the digest is the hash of that preimage |
| `RequestIdentity.RequestIdentityIff` | src/runtime.cpp:48-100 | over all six kinds, two requests have one preimage exactly when they are the same operation on the same subject |
| `RequestIdentity.ComputeSemanticDigest` | src/runtime.cpp:48-100 | the semantic digest is the hash of that preimage |
| `Protocol.RegisterCodecIff` | src/protocol.cpp:397-442 | a payload is accepted as a request exactly when it is that request's encoding and fits the limits |
| `Protocol.EncodeRegisterRequest` | src/protocol.cpp:397-413 | the encoder follows the format and refuses a provenance outside the limits |
| `Protocol.DecodeRegisterRequest` | src/protocol.cpp:415-442 | the decoder follows the format |
| `Protocol.FrameCodecIff` | src/protocol.cpp:253-351 | header and payload are accepted as a frame exactly when together they encode it |
| `Layout.RegisterLayout` | src/protocol.cpp:397-413 | the registration request field after field |
| `Layout.FrameLayout` | src/protocol.cpp:253-281 | the frame field after field, its digest over the first 46 bytes and the payload |
| `Protocol.WriteFrame` | src/protocol.cpp:253-281 | the frame encoder, with its digest over header fields and payload |
| `Protocol.ReadFrame` | src/protocol.cpp:295-351 | the frame decoder, with its refusals in order |

## Left out

- Runtime.EpochRuntime.RecordFence: a thrown counter overflow is promised to coincide with the abstract throw and to keep the epoch; what else memory holds after it is not, since the undo runs without a rebuild of the indexes.
- Undoing.AdvanceRollbackNeverExact: the undo log is a sequence of named actions, not of closures; the worker count a live-fence undo restores is recomputed by the rebuild that follows.
- Runs.RunsKeepInvariant: in runs a failed save ends the process; going on after one is `Undoing`, `Runtime` and, for the files, `Store`. A misjudged batch, possible only where incumbents are replaced, is left out of runs because it breaks the invariant (`Witnesses.BatchMisled`). Restarts take the next epoch; the mode that keeps the epoch on open is not modelled.
- Completeness.SaveRefusesOnly: for a batch, under explicit fencing; where incumbents are replaced, a judged batch is refused exactly when it leaves a boot live twice (`Settlement.JudgedBatchSettles`).
- Preservation.GrantKeeps: identifiers generated for grants and transitions are fresh and not nil by hypothesis.
- Limits above the structural ceilings of the durable format: not modelled.
- Store.StepsKeepSound: of a process that goes on after a failed save or a misjudged batch, only that its epoch was kept (`Undoing.RollbackKeepsEpoch`) and that later operations do not lower it.
- Fitting.OperationKeepsFit: that requests carry well-formed identifiers, texts and scope sets is by hypothesis; the source's types enforce it on construction (`Identity`, `Scopes`).
- Validator.CheckDurable: acceptance or refusal, not the category and text of the error.
- Image.Decode: error categories are kept, messages are not.
- Explanations, renderings and enum names: diagnostic text.
- Sockets, server, client, locking, timeouts, command-line programs: every public operation is one atomic step.
- File-system calls: each either happens or fails without effect; temporary names and directory creation are left out.
- The payload codecs other than the registration request: they repeat its pattern.
- Snapshot building and listing queries: copies of the state, sorted.
- Worker counts and sizes are unbounded integers; the 64-bit counters are modelled with their limits.
