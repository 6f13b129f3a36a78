/** Reading depends only on the bytes it takes: no accepted payload begins another, so bytes after a
    payload, or bytes missing from its end, are always noticed. */
module PrefixFree {
  import opened Basics
  import opened Model
  import opened Encoding
  import opened Identity
  import opened Scopes
  import opened Codec
  import opened DurableCodec

  /** What was read stays the same when more bytes follow, and they are left over. */
  ghost predicate Carries<T>(r: Read<T>, longer: Read<T>, e: Bytes) {
    r.Ok? ==> longer == Ok(Parsed(r.value.value, r.value.rest + e))
  }

  ghost predicate Local<T(!new)>(get: Bytes -> Read<T>) {
    forall b: Bytes, e: Bytes {:trigger get(b + e)} :: Carries(get(b), get(b + e), e)
  }

  // ---- fields ------------------------------------------------------------

  lemma LocalLittle(b: Bytes, e: Bytes, n: nat)
    ensures Carries(GetLittle(b, n), GetLittle(b + e, n), e)
  {
    if |b| >= n {
      assert (b + e)[..n] == b[..n] && (b + e)[n..] == b[n..] + e;
    }
  }

  lemma LocalNumbers(b: Bytes, e: Bytes)
    ensures Carries(GetU8(b), GetU8(b + e), e) && Carries(GetU16(b), GetU16(b + e), e)
    ensures Carries(GetU32(b), GetU32(b + e), e) && Carries(GetU64(b), GetU64(b + e), e)
  {
    hide GetLittle;
    LocalLittle(b, e, 2);
    LocalLittle(b, e, 4);
    LocalLittle(b, e, 8);
    assert b != [] ==> (b + e)[0] == b[0] && (b + e)[1..] == b[1..] + e;
  }

  lemma LocalFixed(b: Bytes, e: Bytes)
    ensures Carries(GetId(b), GetId(b + e), e) && Carries(GetDigest(b), GetDigest(b + e), e)
  {
    hide BigValue;
    assert |b| >= 16 ==> (b + e)[..16] == b[..16] && (b + e)[16..] == b[16..] + e;
    assert |b| >= 32 ==> (b + e)[..32] == b[..32] && (b + e)[32..] == b[32..] + e;
  }

  lemma LocalText(b: Bytes, e: Bytes, m: nat, s: nat)
    ensures Carries(GetText(b, m, s), GetText(b + e, m, s), e)
  {
    hide GetU32;
    LocalNumbers(b, e);
    if GetU32(b).Ok? {
      var n := GetU32(b).value;
      if n.value <= |n.rest| {
        assert (n.rest + e)[..n.value] == n.rest[..n.value] && (n.rest + e)[n.value..] == n.rest[n.value..] + e;
      }
    }
  }

  lemma FieldsLocal()
    ensures forall b: Bytes, e: Bytes {:trigger GetU8(b + e)} :: Carries(GetU8(b), GetU8(b + e), e)
    ensures forall b: Bytes, e: Bytes {:trigger GetU16(b + e)} :: Carries(GetU16(b), GetU16(b + e), e)
    ensures forall b: Bytes, e: Bytes {:trigger GetU32(b + e)} :: Carries(GetU32(b), GetU32(b + e), e)
    ensures forall b: Bytes, e: Bytes {:trigger GetU64(b + e)} :: Carries(GetU64(b), GetU64(b + e), e)
    ensures forall b: Bytes, e: Bytes {:trigger GetId(b + e)} :: Carries(GetId(b), GetId(b + e), e)
    ensures forall b: Bytes, e: Bytes {:trigger GetDigest(b + e)} :: Carries(GetDigest(b), GetDigest(b + e), e)
    ensures forall b: Bytes, e: Bytes, m: nat, s: nat {:trigger GetText(b + e, m, s)} :: Carries(GetText(b, m, s), GetText(b + e, m, s), e)
  {
    hide GetU8, GetU16, GetU32, GetU64, GetId, GetDigest, GetText, Carries;
    forall b: Bytes, e: Bytes
      ensures Carries(GetU8(b), GetU8(b + e), e) && Carries(GetU16(b), GetU16(b + e), e)
      ensures Carries(GetU32(b), GetU32(b + e), e) && Carries(GetU64(b), GetU64(b + e), e)
      ensures Carries(GetId(b), GetId(b + e), e) && Carries(GetDigest(b), GetDigest(b + e), e)
    {
      LocalNumbers(b, e);
      LocalFixed(b, e);
    }
    forall b: Bytes, e: Bytes, m: nat, s: nat
      ensures Carries(GetText(b, m, s), GetText(b + e, m, s), e)
    {
      LocalText(b, e, m, s);
    }
  }

  // ---- lists -------------------------------------------------------------

  lemma {:induction false} LocalList<T(!new)>(n: nat, b: Bytes, e: Bytes, get: Bytes -> Read<T>)
    requires Local(get)
    ensures Carries(GetList(n, b, get), GetList(n, b + e, get), e)
  {
    if n > 0 {
      assert Carries(get(b), get(b + e), e);
      if get(b).Ok? {
        LocalList(n - 1, get(b).value.rest, e, get);
      }
    }
  }

  lemma LocalCounted<T(!new)>(ceiling: nat, unit: nat, get: Bytes -> Read<T>)
    requires Local(get)
    ensures forall b: Bytes, e: Bytes {:trigger GetCounted(b + e, ceiling, unit, get)} :: Carries(GetCounted(b, ceiling, unit, get), GetCounted(b + e, ceiling, unit, get), e)
  {
    hide GetList, GetU32, Local;
    forall b: Bytes, e: Bytes
      ensures Carries(GetCounted(b, ceiling, unit, get), GetCounted(b + e, ceiling, unit, get), e)
    {
      LocalNumbers(b, e);
      if GetU32(b).Ok? {
        LocalList(GetU32(b).value.value, GetU32(b).value.rest, e, get);
      }
    }
  }

  lemma {:induction false} LocalScopesAfter(n: nat, previous: Option<Scope>, b: Bytes, e: Bytes, s: nat)
    ensures Carries(GetScopesAfter(n, previous, b, s), GetScopesAfter(n, previous, b + e, s), e)
  {
    hide GetScope, ScopeLess;
    if n > 0 {
      LocalScope(b, e, s);
      if GetScope(b, s).Ok? {
        LocalScopesAfter(n - 1, Some(GetScope(b, s).value.value), GetScope(b, s).value.rest, e, s);
      }
    }
  }

  lemma LocalScope(b: Bytes, e: Bytes, s: nat)
    ensures Carries(GetScope(b, s), GetScope(b + e, s), e)
  {
    hide GetU8, GetText, IsIdentifierText, KindFromCode;
    FieldsLocal();
  }

  lemma LocalScopes()
    ensures forall b: Bytes, e: Bytes, m: nat, s: nat {:trigger GetScopes(b + e, m, s)} :: Carries(GetScopes(b, m, s), GetScopes(b + e, m, s), e)
  {
    hide GetScopesAfter, GetU32;
    forall b: Bytes, e: Bytes, m: nat, s: nat
      ensures Carries(GetScopes(b, m, s), GetScopes(b + e, m, s), e)
    {
      LocalNumbers(b, e);
      if GetU32(b).Ok? {
        LocalScopesAfter(GetU32(b).value.value, None, GetU32(b).value.rest, e, s);
      }
    }
  }

  // ---- records -----------------------------------------------------------

  lemma LocalAttempt()
    ensures Local(GetAttempt) && Local(GetIncarnation) && Local(GetId)
  {
    hide GetId, GetU64, GetU8, GetU16, GetDigest;
    FieldsLocal();
  }

  lemma LocalHead(b: Bytes, e: Bytes)
    ensures Carries(GetHead(b), GetHead(b + e), e)
  {
    hide GetId, GetU64, GetU8, GetText, IsIdentifierText;
    FieldsLocal();
  }

  lemma LocalParticipant()
    ensures Local(GetParticipant)
  {
    hide GetId, GetU64, GetHead, GetScopes, GetCounted, GetIncarnation, GetAttempt;
    FieldsLocal();
    LocalScopes();
    LocalAttempt();
    LocalCounted(MAX_RECORDS, 32, GetIncarnation);
    LocalCounted(MAX_RECORDS, 16, GetId);
    LocalCounted(MAX_RECORDS, ATTEMPT_SIZE, GetAttempt);
    forall b: Bytes, e: Bytes
      ensures Carries(GetParticipant(b), GetParticipant(b + e), e)
    {
      LocalHead(b, e);
    }
  }

  lemma LocalFence()
    ensures Local(GetFence)
  {
    hide GetId, GetU64, GetU8, GetText, IsIdentifierText, IsBoundedText;
    FieldsLocal();
  }

  lemma LocalGrantTail(b: Bytes, e: Bytes)
    ensures Carries(GetGrantTail(b), GetGrantTail(b + e), e)
  {
    hide GetId, GetU64, GetU8, GetText, IsBoundedText;
    FieldsLocal();
  }

  lemma LocalGrant()
    ensures Local(GetGrant)
  {
    hide GetId, GetU64, GetText, GetScopes, GetGrantTail, IsIdentifierText;
    FieldsLocal();
    LocalScopes();
    forall b: Bytes, e: Bytes
      ensures Carries(GetGrantTail(b), GetGrantTail(b + e), e)
    {
      LocalGrantTail(b, e);
    }
  }

  lemma LocalTransition()
    ensures Local(GetTransition)
  {
    hide GetId, GetU64, GetU8, GetText, IsBoundedText;
    FieldsLocal();
  }

  // ---- the payload -------------------------------------------------------

  lemma LocalCounters(b: Bytes, e: Bytes)
    ensures Carries(GetCounters(b), GetCounters(b + e), e)
  {
    hide GetId, GetU64;
    FieldsLocal();
  }

  lemma LocalAuthority(b: Bytes, e: Bytes)
    ensures Carries(GetAuthority(b), GetAuthority(b + e), e) && Carries(GetHistory(b), GetHistory(b + e), e)
  {
    hide GetCounted, GetParticipant, GetFence, GetGrant, GetTransition, GetAttempt, Local;
    LocalParticipant();
    LocalFence();
    LocalGrant();
    LocalTransition();
    LocalAttempt();
    LocalCounted(MAX_RECORDS, 32, GetParticipant);
    LocalCounted(MAX_RECORDS, 49, GetFence);
    LocalCounted(MAX_RECORDS, 89, GetGrant);
    LocalCounted(MAX_RECORDS, TRANSITION_DEMAND, GetTransition);
    LocalCounted(MAX_RECORDS, ATTEMPT_SIZE, GetAttempt);
  }

  /** Bytes after an accepted payload are refused, and so an accepted payload cut short is refused too. */
  lemma TrailingBytesRefused(b: Bytes, e: Bytes)
    requires DecodePayload(b).Ok? && e != []
    ensures DecodePayload(b + e) == Err(BadInput)
  {
    hide GetCounters, GetAuthority, GetHistory;
    LocalCounters(b, e);
    var c := GetCounters(b).value;
    LocalAuthority(c.rest, e);
    LocalAuthority(GetAuthority(c.rest).value.rest, e);
  }

  lemma TruncationRefused(b: Bytes, n: nat)
    requires DecodePayload(b).Ok? && n < |b|
    ensures DecodePayload(b[..n]).Err?
  {
    hide DecodePayload;
    if DecodePayload(b[..n]).Ok? {
      assert b == b[..n] + b[n..];
      TrailingBytesRefused(b[..n], b[n..]);
    }
  }
}
