/** Registering a batch, and how it relates to registering one request at a time. */
module Batch {
  import opened Basics
  import opened Model
  import opened Authority
  import opened Invariant
  import opened Preservation

  /** Applies the requests in order. With `commit`, each accepted one advances the generation. */
  ghost function RegisterEach(o: Options, s: State, reqs: seq<RegisterRequest>, commit: bool): Step<seq<RegistrationResult>> {
    if reqs == [] then Done(s, [], false)
    else
      match RegisterEach(o, s, reqs[..|reqs| - 1], commit)
      case Threw => Threw
      case Done(s1, results, mutated) =>
        match Register(o, s1, reqs[|reqs| - 1], commit)
        case Threw => Threw
        case Done(s2, result, more) => Done(s2, results + [result], mutated || more)
  }

  /** The batch operation: one generation for the whole batch, if it changed anything. */
  ghost function RegisterBatch(o: Options, s: State, reqs: seq<RegisterRequest>): Step<seq<RegistrationResult>> {
    match RegisterEach(o, s, reqs, false)
    case Threw => Threw
    case Done(s1, results, mutated) =>
      if !mutated then Done(s1, results, false)
      else if s1.generation == U64_MAX then Threw
      else Done(s1.(generation := s1.generation + 1), results, true)
  }

  function At(s: State, generation: U64): State {
    s.(generation := generation)
  }

  /** Without replacement, registration reads the generation only to advance it. */
  lemma RegisterIgnoresGeneration(o: Options, s: State, g: U64, req: RegisterRequest)
    requires o.replacement == RequireExplicitFence && g < U64_MAX
    ensures var quiet := Register(o, s, req, false);
            var loud := Register(o, At(s, g), req, true);
            && (quiet.Threw? <==> loud.Threw?)
            && (quiet.Done? ==>
                  && loud.result == quiet.result && loud.mutated == quiet.mutated
                  && loud.state == At(quiet.state, if quiet.mutated then g + 1 else g)
                  && quiet.state.generation == s.generation
                  && (!quiet.mutated ==> quiet.state == s))
  {
    hide FindAttempt, FindIncarnation, Enrolled, IsBoundedText, RegistrableScopes;
    assert Screen(o, At(s, g), req) == Screen(o, s, req) by {
      assert LookupFence(At(s, g), req.participant, req.boot) == LookupFence(s, req.participant, req.boot);
    }
    assert !Screen(o, s, req).Replace?;
  }

  function Registrations(results: seq<RegistrationResult>): nat {
    if results == [] then 0
    else Registrations(results[..|results| - 1])
         + (if results[|results| - 1].outcome == Registered && !results[|results| - 1].replayed then 1 else 0)
  }

  /** An operation that registers says so without claiming a replay, and only such a one mutates. */
  lemma MutatesWhenRegistered(o: Options, s: State, req: RegisterRequest)
    requires o.replacement == RequireExplicitFence
    ensures var step := Register(o, s, req, false);
            step.Done? ==> (step.mutated <==> step.result.outcome == Registered && !step.result.replayed)
  {
    hide FindAttempt, FindIncarnation, Enrolled, IsBoundedText, RegistrableScopes, LookupFence, ScreenStructure, Workers;
    ScreenRefusals(o, s, req);
  }

  lemma ScreenRefusals(o: Options, s: State, req: RegisterRequest)
    ensures var v := Screen(o, s, req); v.Refuse? ==> (v.result.outcome == Registered ==> v.result.replayed)
    ensures o.replacement == RequireExplicitFence ==> !Screen(o, s, req).Replace?
  {
    hide FindAttempt, FindIncarnation, IsBoundedText, RegistrableScopes, LookupFence;
  }

  /** Batch refines sequence: with explicit fencing required, a batch answers every request
      exactly as registering one by one would, and leaves the same state, except that the
      generation advances once for the batch and once per registration for the sequence. */
  lemma {:induction false} BatchRefinesSequence(o: Options, s: State, reqs: seq<RegisterRequest>)
    requires o.replacement == RequireExplicitFence && s.generation + |reqs| < U64_MAX
    ensures var quiet := RegisterEach(o, s, reqs, false);
            var loud := RegisterEach(o, s, reqs, true);
            && (quiet.Threw? <==> loud.Threw?)
            && (quiet.Done? ==>
                  && loud.result == quiet.result && |quiet.result| == |reqs|
                  && Registrations(quiet.result) <= |reqs|
                  && loud.state == At(quiet.state, s.generation + Registrations(quiet.result))
                  && quiet.state.generation == s.generation
                  && loud.mutated == quiet.mutated && (quiet.mutated <==> Registrations(quiet.result) > 0)
                  && (!quiet.mutated ==> quiet.state == s))
  {
    hide Register;
    if reqs != [] {
      var init, last := reqs[..|reqs| - 1], reqs[|reqs| - 1];
      BatchRefinesSequence(o, s, init);
      var before := RegisterEach(o, s, init, false);
      if before.Done? {
        var g := s.generation + Registrations(before.result);
        RegisterIgnoresGeneration(o, before.state, g, last);
        MutatesWhenRegistered(o, before.state, last);
        var step := Register(o, before.state, last, false);
        if step.Done? {
          assert (before.result + [step.result])[..|before.result|] == before.result;
        }
      }
    }
  }

  /** The public batch, against the sequence: same answers, and the same state up to `generation`. */
  lemma BatchMatchesSequence(o: Options, s: State, reqs: seq<RegisterRequest>)
    requires o.replacement == RequireExplicitFence && s.generation + |reqs| < U64_MAX
    ensures var batch := RegisterBatch(o, s, reqs);
            var each := RegisterEach(o, s, reqs, true);
            && (batch.Threw? <==> each.Threw?)
            && (batch.Done? ==>
                  && batch.result == each.result && batch.mutated == each.mutated
                  && batch.state == At(each.state, batch.state.generation)
                  && batch.state.generation == (if batch.mutated then s.generation + 1 else s.generation)
                  && each.state.generation == s.generation + Registrations(batch.result))
  {
    hide RegisterEach, Registrations;
    BatchRefinesSequence(o, s, reqs);
    var quiet := RegisterEach(o, s, reqs, false);
    if quiet.Done? && quiet.mutated {
      assert quiet.state.generation < U64_MAX;
    }
  }

  lemma {:induction false} RegisterEachKeeps(o: Options, s: State, reqs: seq<RegisterRequest>)
    requires ViableOptions(o) && Inv(o, s)
    ensures var step := RegisterEach(o, s, reqs, false); step.Done? ==> Inv(o, step.state)
  {
    hide Inv, Register;
    if reqs != [] {
      RegisterEachKeeps(o, s, reqs[..|reqs| - 1]);
      var before := RegisterEach(o, s, reqs[..|reqs| - 1], false);
      if before.Done? {
        RegisterKeeps(o, before.state, reqs[|reqs| - 1], false);
      }
    }
  }

  lemma GenerationKeeps(o: Options, s: State, g: U64)
    requires Inv(o, s) && g >= s.generation
    ensures Inv(o, At(s, g))
  {
    hide ParticipantOk, GrantsOk, TableOk, BootLive;
    UntouchedHistories(o, s, At(s, g));
    SameParticipants(o, s, At(s, g));
  }

  lemma BatchKeeps(o: Options, s: State, reqs: seq<RegisterRequest>)
    requires ViableOptions(o) && Inv(o, s)
    ensures var step := RegisterBatch(o, s, reqs); step.Done? ==> Inv(o, step.state)
  {
    hide Inv, RegisterEach;
    RegisterEachKeeps(o, s, reqs);
    var step := RegisterEach(o, s, reqs, false);
    if step.Done? && step.state.generation < U64_MAX {
      GenerationKeeps(o, step.state, step.state.generation + 1);
    }
  }
}
