/** What identifies a request: the preimage of its semantic digest. */
module RequestIdentity {
  import opened Basics
  import opened Model
  import opened Encoding
  import opened Identity
  import opened Scopes
  import opened Codec
  import opened DurableStream
  import opened Sha256
  import opened SnapshotDigest

  predicate RequestFits(r: Request) {
    match r
    case Registering(q) => IdFits(q.participant) && ScopesFit(q.scopes)
    case Granting(q) => IdFits(q.participant) && ScopesFit(q.scopes)
    case Fencing(q) => IdFits(q.participant)
    case Revoking(_) => true
    case Advancing(_) => true
    case Retiring(q) => IdFits(q.participant)
  }

  function PutRegister(q: RegisterRequest): Bytes
    requires IdFits(q.participant) && ScopesFit(q.scopes)
  {
    PutU8(1, PutText(q.participant.text, PutId(q.boot, PutU8(PolicyCode(q.policy), PutScopes(q.scopes, [])))))
  }

  function PutGrantRequest(q: GrantRequest): Bytes
    requires IdFits(q.participant) && ScopesFit(q.scopes)
  {
    PutU8(2, PutText(q.participant.text, PutId(q.boot, PutU64(q.incarnation, PutScopes(q.scopes, PutId(OrNil(q.parent), []))))))
  }

  function PutFenceRequest(q: FenceRequest): Bytes
    requires IdFits(q.participant)
  {
    PutU8(3, PutText(q.participant.text, PutId(q.boot, PutU8(ReasonCode(q.reason), []))))
  }

  function PutRevoke(q: RevokeRequest): Bytes {
    PutU8(4, PutId(q.grant, PutU8(ReasonCode(q.reason), [])))
  }

  function PutAdvance(q: AdvanceRequest): Bytes {
    PutU8(5, PutU8(CauseCode(q.cause), []))
  }

  function PutRetire(q: RetireRequest): Bytes
    requires IdFits(q.participant)
  {
    PutU8(6, PutText(q.participant.text, []))
  }

  function RequestPreimage(r: Request): Bytes
    requires RequestFits(r)
  {
    match r
    case Registering(q) => PutRegister(q)
    case Granting(q) => PutGrantRequest(q)
    case Fencing(q) => PutFenceRequest(q)
    case Revoking(q) => PutRevoke(q)
    case Advancing(q) => PutAdvance(q)
    case Retiring(q) => PutRetire(q)
  }

  /** The fields a request is identified by. Attempt, expected epoch and generation, notes and
      provenance are not among them; no parent and a nil parent are the same. */
  function Essence(r: Request): Request {
    match r
    case Registering(q) => Registering(q.(attempt := NIL, expectedEpoch := 0, expectedGeneration := None, provenance := []))
    case Granting(q) => Granting(q.(attempt := NIL, expectedEpoch := 0, provenance := [], parent := Some(OrNil(q.parent))))
    case Fencing(q) => Fencing(q.(attempt := NIL, expectedEpoch := 0, note := []))
    case Revoking(q) => Revoking(q.(attempt := NIL, expectedEpoch := 0, note := []))
    case Advancing(q) => Advancing(q.(attempt := NIL, expectedEpoch := 0, provenance := []))
    case Retiring(q) => Retiring(q.(attempt := NIL, expectedEpoch := 0, note := []))
  }

  function KindOf(r: Request): OperationKind {
    match r
    case Registering(_) => RegisterKind
    case Granting(_) => GrantKind
    case Fencing(_) => FenceKind
    case Revoking(_) => RevokeKind
    case Advancing(_) => AdvanceKind
    case Retiring(_) => RetireKind
  }

  /** The first byte tells the kind. */
  lemma KindLeads(r: Request)
    requires RequestFits(r)
    ensures GetU8(RequestPreimage(r)).Ok? && GetU8(RequestPreimage(r)).value.value == OperationCode(KindOf(r))
  {
    hide GetU8, PutU8, PutText, PutId, PutU64, PutScopes, IdFits, ScopesFit;
    match r
    case Registering(q) => IdLengths(q.participant); ScopeSetsDiffer(q.scopes, q.scopes, [], []);
    case Granting(q) => IdLengths(q.participant); ScopeSetsDiffer(q.scopes, q.scopes, [], []);
    case Fencing(q) => IdLengths(q.participant);
    case Revoking(q) =>
    case Advancing(q) =>
    case Retiring(q) => IdLengths(q.participant);
  }

  lemma RegistersDiffer(p: RegisterRequest, q: RegisterRequest)
    requires RequestFits(Registering(p)) && RequestFits(Registering(q))
    ensures PutRegister(p) == PutRegister(q) <==> Essence(Registering(p)) == Essence(Registering(q))
  {
    hide GetU8, PutU8, GetId, PutId, PutText, PutScopes, IdFits, ScopesFit;
    IdLengths(p.participant);
    IdLengths(q.participant);
    ScopeSetsDiffer(p.scopes, q.scopes, [], []);
    var p2, q2 := PutId(p.boot, PutU8(PolicyCode(p.policy), PutScopes(p.scopes, []))), PutId(q.boot, PutU8(PolicyCode(q.policy), PutScopes(q.scopes, [])));
    assert p2 == q2 <==> p.boot == q.boot && p.policy == q.policy && PutScopes(p.scopes, []) == PutScopes(q.scopes, []);
    TextsDiffer(p.participant.text, q.participant.text, p2, q2);
    assert PutRegister(p) == PutU8(1, PutText(p.participant.text, p2)) && PutRegister(q) == PutU8(1, PutText(q.participant.text, q2));
  }

  lemma GrantRequestsDiffer(p: GrantRequest, q: GrantRequest)
    requires RequestFits(Granting(p)) && RequestFits(Granting(q))
    ensures PutGrantRequest(p) == PutGrantRequest(q) <==> Essence(Granting(p)) == Essence(Granting(q))
  {
    hide GetU8, PutU8, GetId, PutId, GetU64, PutU64, PutText, PutScopes, IdFits, ScopesFit;
    IdLengths(p.participant);
    IdLengths(q.participant);
    var p4, q4 := PutId(OrNil(p.parent), []), PutId(OrNil(q.parent), []);
    assert p4 == q4 <==> OrNil(p.parent) == OrNil(q.parent);
    ScopeSetsDiffer(p.scopes, q.scopes, p4, q4);
    var p2, q2 := PutId(p.boot, PutU64(p.incarnation, PutScopes(p.scopes, p4))), PutId(q.boot, PutU64(q.incarnation, PutScopes(q.scopes, q4)));
    assert p2 == q2 <==> p.boot == q.boot && p.incarnation == q.incarnation && PutScopes(p.scopes, p4) == PutScopes(q.scopes, q4);
    TextsDiffer(p.participant.text, q.participant.text, p2, q2);
    assert PutGrantRequest(p) == PutU8(2, PutText(p.participant.text, p2));
    assert PutGrantRequest(q) == PutU8(2, PutText(q.participant.text, q2));
  }

  lemma FenceRequestsDiffer(p: FenceRequest, q: FenceRequest)
    requires RequestFits(Fencing(p)) && RequestFits(Fencing(q))
    ensures PutFenceRequest(p) == PutFenceRequest(q) <==> Essence(Fencing(p)) == Essence(Fencing(q))
  {
    hide GetU8, PutU8, GetId, PutId, PutText, IdFits;
    IdLengths(p.participant);
    IdLengths(q.participant);
    var p2, q2 := PutId(p.boot, PutU8(ReasonCode(p.reason), [])), PutId(q.boot, PutU8(ReasonCode(q.reason), []));
    assert p2 == q2 <==> p.boot == q.boot && p.reason == q.reason;
    TextsDiffer(p.participant.text, q.participant.text, p2, q2);
    assert PutFenceRequest(p) == PutU8(3, PutText(p.participant.text, p2));
    assert PutFenceRequest(q) == PutU8(3, PutText(q.participant.text, q2));
  }

  lemma OthersDiffer(r: Request, t: Request)
    requires RequestFits(r) && RequestFits(t) && OperationCode(KindOf(r)) == OperationCode(KindOf(t)) && OperationCode(KindOf(r)) >= 4
    ensures RequestPreimage(r) == RequestPreimage(t) <==> Essence(r) == Essence(t)
  {
    hide GetU8, PutU8, GetId, PutId, PutText, IdFits;
    match r
    case Revoking(p) =>
      var p2, q2 := PutU8(ReasonCode(p.reason), []), PutU8(ReasonCode(t.revoke.reason), []);
      assert p2 == q2 <==> p.reason == t.revoke.reason;
      assert PutId(p.grant, p2) == PutId(t.revoke.grant, q2) <==> p.grant == t.revoke.grant && p2 == q2;
    case Advancing(p) =>
      assert PutU8(CauseCode(p.cause), []) == PutU8(CauseCode(t.advance.cause), []) <==> p.cause == t.advance.cause;
    case Retiring(p) =>
      IdLengths(p.participant);
      IdLengths(t.retire.participant);
      TextsDiffer(p.participant.text, t.retire.participant.text, [], []);
  }

  /** Unambiguous identity: over all six kinds together, two requests have the same preimage
      exactly when they are the same operation on the same subject. */
  lemma RequestIdentityIff(r: Request, t: Request)
    requires RequestFits(r) && RequestFits(t)
    ensures RequestPreimage(r) == RequestPreimage(t) <==> Essence(r) == Essence(t)
  {
    hide PutRegister, PutGrantRequest, PutFenceRequest, PutRevoke, PutAdvance, PutRetire, GetU8;
    KindLeads(r);
    KindLeads(t);
    if OperationCode(KindOf(r)) == OperationCode(KindOf(t)) {
      match r
      case Registering(p) => RegistersDiffer(p, t.register);
      case Granting(p) => GrantRequestsDiffer(p, t.grant);
      case Fencing(p) => FenceRequestsDiffer(p, t.fence);
      case Revoking(_) => OthersDiffer(r, t);
      case Advancing(_) => OthersDiffer(r, t);
      case Retiring(_) => OthersDiffer(r, t);
    }
  }

  // ---- computing it --------------------------------------------------------

  function SemanticDigest(r: Request): Digest
    requires RequestFits(r)
  {
    Widths();
    BigValue(Hash(RequestPreimage(r)))
  }

  method WriteRegister(w: ByteWriter, q: RegisterRequest)
    requires IdFits(q.participant) && ScopesFit(q.scopes) && w.buffer == []
    modifies w
    ensures w.buffer == PutRegister(q)
  {
    hide PutU8, PutId, PutText, PutScopes, IdFits, ScopesFit;
    IdLengths(q.participant);
    WellWrites(q.scopes);
    w.Byte(1);
    var ok := w.Text(q.participant.text);
    w.Fixed16(q.boot);
    w.Byte(PolicyCode(q.policy));
    ok := WriteScopes(w, q.scopes);
    Alone(w.buffer);
    Alone(PutRegister(q));
  }

  method WriteGrantRequest(w: ByteWriter, q: GrantRequest)
    requires IdFits(q.participant) && ScopesFit(q.scopes) && w.buffer == []
    modifies w
    ensures w.buffer == PutGrantRequest(q)
  {
    hide PutU8, PutU64, PutId, PutText, PutScopes, IdFits, ScopesFit;
    IdLengths(q.participant);
    WellWrites(q.scopes);
    w.Byte(2);
    var ok := w.Text(q.participant.text);
    w.Fixed16(q.boot);
    w.U64(q.incarnation);
    ok := WriteScopes(w, q.scopes);
    w.Fixed16(OrNil(q.parent));
    Alone(w.buffer);
    Alone(PutGrantRequest(q));
  }

  method WriteFenceRequest(w: ByteWriter, q: FenceRequest)
    requires IdFits(q.participant) && w.buffer == []
    modifies w
    ensures w.buffer == PutFenceRequest(q)
  {
    hide PutU8, PutId, PutText, IdFits;
    IdLengths(q.participant);
    w.Byte(3);
    var ok := w.Text(q.participant.text);
    w.Fixed16(q.boot);
    w.Byte(ReasonCode(q.reason));
    Alone(w.buffer);
    Alone(PutFenceRequest(q));
  }

  lemma Alone(b: Bytes)
    ensures b + [] == b && [] + b == b
  {
  }

  /** The semantic digest of a request. */
  method ComputeSemanticDigest(r: Request) returns (digest: Digest)
    requires RequestFits(r)
    ensures digest == SemanticDigest(r)
  {
    hide PutU8, PutId, PutText, PutRegister, PutGrantRequest, PutFenceRequest, Hash, IdFits, ScopesFit, BigValue, Pow256;
    var w := new ByteWriter();
    match r {
      case Registering(q) => WriteRegister(w, q);
      case Granting(q) => WriteGrantRequest(w, q);
      case Fencing(q) => WriteFenceRequest(w, q);
      case Revoking(q) =>
        w.Byte(4);
        w.Fixed16(q.grant);
        w.Byte(ReasonCode(q.reason));
        Alone(w.buffer);
        Alone(PutRevoke(q));
      case Advancing(q) =>
        w.Byte(5);
        w.Byte(CauseCode(q.cause));
        Alone(w.buffer);
        Alone(PutAdvance(q));
      case Retiring(q) =>
        IdLengths(q.participant);
        w.Byte(6);
        var ok := w.Text(q.participant.text);
        Alone(w.buffer);
        Alone(PutRetire(q));
    }
    var hash := HashOf(w.buffer);
    DigestFits(hash);
    digest := BigValue(hash);
  }

  lemma DigestFits(hash: Bytes)
    requires |hash| == 32
    ensures BigValue(hash) < 0x1_0000_0000_0000_0000_0000_0000_0000_0000_0000_0000_0000_0000_0000_0000_0000_0000
  {
    Widths();
  }
}
