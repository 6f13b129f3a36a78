/** The payload of a durable image: the format of every record, and when decoding gives back
    what was encoded. */
module Codec {
  import opened Basics
  import opened Model
  import opened Sorting
  import opened Encoding
  import opened Identity
  import opened Scopes

  const MAX_TEXT: nat := 4096

  // ---- counted lists -----------------------------------------------------

  function GetList<T>(n: nat, b: Bytes, get: Bytes -> Read<T>): (r: Read<seq<T>>)
    ensures r.Ok? ==> |r.value.value| == n
  {
    if n == 0 then Ok(Parsed([], b))
    else
      var x :- get(b);
      var xs :- GetList(n - 1, x.rest, get);
      Ok(Parsed([x.value] + xs.value, xs.rest))
  }

  /** A count, bounded by a ceiling and by the input that is left at `unit` bytes an element. */
  function GetCounted<T>(b: Bytes, ceiling: nat, unit: nat, get: Bytes -> Read<T>): Read<seq<T>> {
    var n :- GetU32(b);
    if n.value > ceiling then Err(OverLimit)
    else if n.value * unit > |n.rest| then Err(BadInput)
    else GetList(n.value, n.rest, get)
  }

  function PutList<T>(xs: seq<T>, tail: Bytes, put: (T, Bytes) --> Bytes): Bytes
    requires forall x, t :: x in xs ==> put.requires(x, t)
  {
    if xs == [] then tail else put(xs[0], PutList(xs[1..], tail, put))
  }

  function PutCounted<T>(xs: seq<T>, tail: Bytes, put: (T, Bytes) --> Bytes): Bytes
    requires forall x, t :: x in xs ==> put.requires(x, t)
  {
    PutU32(Low32(|xs|), PutList(xs, tail, put))
  }

  /** The reader gives every one of these values back, and none is shorter than `unit`. */
  ghost predicate Faithful<T(!new)>(xs: seq<T>, unit: nat, get: Bytes -> Read<T>, put: (T, Bytes) --> Bytes) {
    forall x, t: Bytes :: x in xs ==>
      put.requires(x, t) && get(put(x, t)) == Ok(Parsed(x, t)) && |put(x, t)| >= unit + |t|
  }

  lemma {:induction false} ListRoundTrip<T(!new)>(xs: seq<T>, tail: Bytes, unit: nat, get: Bytes -> Read<T>, put: (T, Bytes) --> Bytes)
    requires Faithful(xs, unit, get, put)
    ensures GetList(|xs|, PutList(xs, tail, put), get) == Ok(Parsed(xs, tail))
    ensures |PutList(xs, tail, put)| >= |xs| * unit + |tail|
  {
    if xs != [] {
      var rest := xs[1..];
      assert xs == [xs[0]] + rest;
      assert Faithful(rest, unit, get, put);
      ListRoundTrip(rest, tail, unit, get, put);
      assert xs[0] in xs;
      assert |xs| * unit == |rest| * unit + unit;
    }
  }

  /** A counted list is read back exactly when its bytes pass the size check of the reader. */
  lemma CountedRoundTripIff<T(!new)>(xs: seq<T>, tail: Bytes, ceiling: nat, demanded: nat, unit: nat,
                                     get: Bytes -> Read<T>, put: (T, Bytes) --> Bytes)
    requires Faithful(xs, unit, get, put) && |xs| <= ceiling <= MAX_RECORDS
    ensures var b := PutCounted(xs, tail, put);
            if |xs| * demanded <= |PutList(xs, tail, put)| then GetCounted(b, ceiling, demanded, get) == Ok(Parsed(xs, tail))
            else GetCounted(b, ceiling, demanded, get) == Err(BadInput)
  {
    hide Low32, GetList, PutList, PutU32, GetU32, Faithful;
    ListRoundTrip(xs, tail, unit, get, put);
  }

  /** Where the reader demands no more than a genuine element takes, it never refuses one. */
  lemma CountedRoundTrip<T(!new)>(xs: seq<T>, tail: Bytes, ceiling: nat, demanded: nat, unit: nat,
                                  get: Bytes -> Read<T>, put: (T, Bytes) --> Bytes)
    requires Faithful(xs, unit, get, put) && |xs| <= ceiling <= MAX_RECORDS && demanded <= unit
    ensures GetCounted(PutCounted(xs, tail, put), ceiling, demanded, get) == Ok(Parsed(xs, tail))
  {
    hide GetCounted, PutCounted, Faithful, PutList;
    ListRoundTrip(xs, tail, unit, get, put);
    CountedRoundTripIff(xs, tail, ceiling, demanded, unit, get, put);
    LessDemanded(|xs|, demanded, unit);
  }

  lemma LessDemanded(n: nat, demanded: nat, unit: nat)
    requires demanded <= unit
    ensures n * demanded <= n * unit
  {
    assert n * unit - n * demanded == n * (unit - demanded);
  }

  /** What every accepted element satisfies, every element of an accepted list satisfies. */
  lemma {:induction false} AcceptedList<T(!new)>(n: nat, b: Bytes, get: Bytes -> Read<T>, good: T -> bool)
    requires forall c: Bytes :: get(c).Ok? ==> good(get(c).value.value)
    ensures GetList(n, b, get).Ok? ==> forall x :: x in GetList(n, b, get).value.value ==> good(x)
  {
    if n > 0 && get(b).Ok? {
      AcceptedList(n - 1, get(b).value.rest, get, good);
    }
  }

  lemma AcceptedCounted<T(!new)>(b: Bytes, ceiling: nat, unit: nat, get: Bytes -> Read<T>, good: T -> bool)
    requires forall c: Bytes :: get(c).Ok? ==> good(get(c).value.value)
    ensures GetCounted(b, ceiling, unit, get).Ok? ==>
              var xs := GetCounted(b, ceiling, unit, get).value.value;
              |xs| <= ceiling && forall x :: x in xs ==> good(x)
  {
    hide GetList;
    var n := GetU32(b);
    if n.Ok? {
      AcceptedList(n.value.value, n.value.rest, get, good);
    }
  }

  // ---- enumerations ------------------------------------------------------

  function PolicyCode(p: IncarnationPolicy): Byte { if p == SingleIncarnation then 0 else 1 }

  function ReasonCode(r: FenceReason): Byte {
    match r
    case ProcessLoss => 0
    case Reincarnation => 1
    case CoordinatorEpochAdvance => 2
    case AdministrativeRevoke => 3
    case SessionProtocolViolation => 4
    case ExplicitOperatorFence => 5
    case AuthorityReplaced => 6
    case ShutdownFence => 7
  }

  function CauseCode(c: TransitionCause): Byte {
    match c
    case CoordinatorStart => 0
    case CoordinatorRestart => 1
    case ExplicitOperatorAdvance => 2
    case DurableRecovery => 3
  }

  function OperationCode(k: OperationKind): Byte {
    match k
    case RegisterKind => 1
    case GrantKind => 2
    case FenceKind => 3
    case RevokeKind => 4
    case AdvanceKind => 5
    case RetireKind => 6
  }

  function GetPolicy(b: Bytes): Read<IncarnationPolicy> {
    var c :- GetU8(b);
    if c.value == 0 then Ok(Parsed(SingleIncarnation, c.rest))
    else if c.value == 1 then Ok(Parsed(MultiIncarnation, c.rest))
    else Err(BadInput)
  }

  function GetReason(b: Bytes): Read<FenceReason> {
    var c :- GetU8(b);
    match c.value
    case 0 => Ok(Parsed(ProcessLoss, c.rest))
    case 1 => Ok(Parsed(Reincarnation, c.rest))
    case 2 => Ok(Parsed(CoordinatorEpochAdvance, c.rest))
    case 3 => Ok(Parsed(AdministrativeRevoke, c.rest))
    case 4 => Ok(Parsed(SessionProtocolViolation, c.rest))
    case 5 => Ok(Parsed(ExplicitOperatorFence, c.rest))
    case 6 => Ok(Parsed(AuthorityReplaced, c.rest))
    case 7 => Ok(Parsed(ShutdownFence, c.rest))
    case _ => Err(BadInput)
  }

  function GetCause(b: Bytes): Read<TransitionCause> {
    var c :- GetU8(b);
    match c.value
    case 0 => Ok(Parsed(CoordinatorStart, c.rest))
    case 1 => Ok(Parsed(CoordinatorRestart, c.rest))
    case 2 => Ok(Parsed(ExplicitOperatorAdvance, c.rest))
    case 3 => Ok(Parsed(DurableRecovery, c.rest))
    case _ => Err(BadInput)
  }

  function GetOperation(b: Bytes): Read<OperationKind> {
    var c :- GetU8(b);
    match c.value
    case 1 => Ok(Parsed(RegisterKind, c.rest))
    case 2 => Ok(Parsed(GrantKind, c.rest))
    case 3 => Ok(Parsed(FenceKind, c.rest))
    case 4 => Ok(Parsed(RevokeKind, c.rest))
    case 5 => Ok(Parsed(AdvanceKind, c.rest))
    case 6 => Ok(Parsed(RetireKind, c.rest))
    case _ => Err(BadInput)
  }

  datatype Flags = Flags(first: bool, second: bool, third: bool)

  function FlagsCode(f: Flags): Byte {
    (if f.first then 1 else 0) + (if f.second then 2 else 0) + (if f.third then 4 else 0)
  }

  /** Three flag bits; any other bit set is an error. */
  function GetFlags(b: Bytes): Read<Flags> {
    var c :- GetU8(b);
    if c.value >= 8 then Err(BadInput)
    else Ok(Parsed(Flags(c.value % 2 == 1, c.value / 2 % 2 == 1, c.value / 4 == 1), c.rest))
  }

  /** An absent identifier is written as nil. */
  function OrNil(x: Option<Id>): Id {
    if x.Some? then x.value else NIL
  }

  // ---- texts -------------------------------------------------------------

  function GetParticipantId(b: Bytes, maxString: nat): Read<ParticipantId> {
    var t :- GetText(b, MAX_IDENTIFIER, maxString);
    if IsIdentifierText(t.value, MAX_IDENTIFIER) then Ok(Parsed(ParticipantId(t.value), t.rest)) else Err(BadInput)
  }

  function GetBoundedText(b: Bytes, maxString: nat): Read<Bytes> {
    var t :- GetText(b, maxString, maxString);
    if IsBoundedText(t.value, maxString) then Ok(t) else Err(BadInput)
  }

  predicate IdFits(id: ParticipantId) {
    IsIdentifierText(id.text, MAX_IDENTIFIER)
  }

  predicate TextFits(text: Bytes) {
    IsBoundedText(text, MAX_TEXT)
  }

  // ---- scope sets --------------------------------------------------------

  /** A canonical set of scopes with well-formed subjects. */
  predicate ScopesWell(scopes: seq<Scope>) {
    && Canonical(scopes)
    && forall i :: 0 <= i < |scopes| ==> IsIdentifierText(scopes[i].subject, MAX_SUBJECT)
  }

  predicate ScopesFit(scopes: seq<Scope>) {
    |scopes| <= MAX_SCOPES && ScopesWell(scopes)
  }

  function GetScope(b: Bytes, maxString: nat): Read<Scope> {
    var c :- GetU8(b);
    var kind := KindFromCode(c.value);
    if kind.None? then Err(BadInput)
    else
      var t :- GetText(c.rest, MAX_SUBJECT, maxString);
      if IsIdentifierText(t.value, MAX_SUBJECT) then Ok(Parsed(Scope(kind.value, t.value), t.rest)) else Err(BadInput)
  }

  predicate ScopesWrite(scopes: seq<Scope>) {
    forall s :: s in scopes ==> Writes(s.subject)
  }

  lemma WellWrites(scopes: seq<Scope>)
    requires ScopesFit(scopes)
    ensures ScopesWrite(scopes)
  {
  }

  function PutScope(s: Scope, tail: Bytes): Bytes {
    PutU8(KindCode(s.kind), PutText(s.subject, tail))
  }

  /** Reads n scopes that must be strictly increasing after `previous`. */
  function GetScopesAfter(n: nat, previous: Option<Scope>, b: Bytes, maxString: nat): Read<seq<Scope>> {
    if n == 0 then Ok(Parsed([], b))
    else
      var s :- GetScope(b, maxString);
      if previous.Some? && !ScopeLess(previous.value, s.value) then Err(BadInput)
      else
        var rest :- GetScopesAfter(n - 1, Some(s.value), s.rest, maxString);
        Ok(Parsed([s.value] + rest.value, rest.rest))
  }

  function GetScopes(b: Bytes, maxScopes: nat, maxString: nat): Read<seq<Scope>> {
    var n :- GetU32(b);
    if n.value > maxScopes then Err(OverLimit) else GetScopesAfter(n.value, None, n.rest, maxString)
  }

  function PutScopes(scopes: seq<Scope>, tail: Bytes): Bytes {
    PutU32(Low32(|scopes|), PutScopeList(scopes, tail))
  }

  function PutScopeList(scopes: seq<Scope>, tail: Bytes): Bytes {
    if scopes == [] then tail else PutScope(scopes[0], PutScopeList(scopes[1..], tail))
  }

  lemma ScopeRoundTrip(s: Scope, tail: Bytes, maxString: nat)
    requires IsIdentifierText(s.subject, MAX_SUBJECT) && |s.subject| <= maxString
    ensures GetScope(PutScope(s, tail), maxString) == Ok(Parsed(s, tail)) && |PutScope(s, tail)| >= |tail|
  {
  }

  lemma FirstOfScopes(scopes: seq<Scope>)
    requires ScopesWell(scopes) && scopes != []
    ensures IsIdentifierText(scopes[0].subject, MAX_SUBJECT) && ScopesWell(scopes[1..])
    ensures forall s :: s in scopes ==> |s.subject| <= MAX_SUBJECT
    ensures |scopes| > 1 ==> ScopeLess(scopes[0], scopes[1..][0])
  {
    hide ScopeLess;
    var rest := scopes[1..];
    forall i, j | 0 <= i < j < |rest|
      ensures ScopeLess(rest[i], rest[j])
    {
      assert rest[i] == scopes[i + 1] && rest[j] == scopes[j + 1];
    }
  }

  lemma {:induction false} ScopesAfterRoundTrip(scopes: seq<Scope>, previous: Option<Scope>, tail: Bytes, maxString: nat)
    requires ScopesWell(scopes) && (maxString >= MAX_SUBJECT || forall s :: s in scopes ==> |s.subject| <= maxString)
    requires previous.Some? && scopes != [] ==> ScopeLess(previous.value, scopes[0])
    ensures forall s :: s in scopes ==> |s.subject| < 0x1_0000_0000
    ensures GetScopesAfter(|scopes|, previous, PutScopeList(scopes, tail), maxString) == Ok(Parsed(scopes, tail))
    ensures |PutScopeList(scopes, tail)| >= |tail|
  {
    hide IsIdentifierText, ScopeLess, GetScope, PutScope, ScopesWell;
    if scopes != [] {
      FirstOfScopes(scopes);
      assert scopes[0] in scopes && forall s :: s in scopes[1..] ==> s in scopes;
      ScopeRoundTrip(scopes[0], PutScopeList(scopes[1..], tail), maxString);
      ScopesAfterRoundTrip(scopes[1..], Some(scopes[0]), tail, maxString);
      assert scopes == [scopes[0]] + scopes[1..];
    }
  }

  lemma WellRoundTrip(scopes: seq<Scope>, tail: Bytes, maxString: nat)
    requires ScopesWell(scopes) && |scopes| < 0x1_0000_0000
    requires maxString >= MAX_SUBJECT || forall s :: s in scopes ==> |s.subject| <= maxString
    ensures forall s :: s in scopes ==> |s.subject| < 0x1_0000_0000
    ensures forall max: nat :: |scopes| <= max ==> GetScopes(PutScopes(scopes, tail), max, maxString) == Ok(Parsed(scopes, tail))
    ensures |PutScopes(scopes, tail)| >= 4 + |tail|
  {
    hide Low32, GetScopesAfter, PutScopeList, PutU32, GetU32, ScopesWell;
    ScopesAfterRoundTrip(scopes, None, tail, maxString);
  }

  /** Canonical scope sets survive the trip. */
  lemma ScopesRoundTrip(scopes: seq<Scope>, tail: Bytes, maxString: nat)
    requires ScopesFit(scopes) && (maxString >= MAX_SUBJECT || forall s :: s in scopes ==> |s.subject| <= maxString)
    ensures |scopes| <= MAX_SCOPES && forall s :: s in scopes ==> |s.subject| < 0x1_0000_0000
    ensures forall max: nat :: |scopes| <= max ==> GetScopes(PutScopes(scopes, tail), max, maxString) == Ok(Parsed(scopes, tail))
    ensures |PutScopes(scopes, tail)| >= 4 + |tail|
  {
    hide ScopesWell, PutScopes, GetScopes;
    WellRoundTrip(scopes, tail, maxString);
  }

  lemma PutBackScope(b: Bytes, maxString: nat)
    requires GetScope(b, maxString).Ok?
    ensures var p := GetScope(b, maxString).value;
            |p.value.subject| <= maxString && |p.value.subject| < 0x1_0000_0000 && PutScope(p.value, p.rest) == b
  {
    hide GetText, PutText, IsIdentifierText;
    var c := GetU8(b).value;
    CodeOfKind(c.value);
    PutBackText(c.rest, MAX_SUBJECT, maxString);
    PutBackU8(b);
  }

  lemma CodeOfKind(c: Byte)
    ensures KindFromCode(c).Some? ==> KindCode(KindFromCode(c).value) == c
  {
  }

  /** What was read is what the bytes encode. */
  lemma {:induction false} PutBackScopesAfter(n: nat, previous: Option<Scope>, b: Bytes, maxString: nat)
    requires GetScopesAfter(n, previous, b, maxString).Ok?
    ensures var p := GetScopesAfter(n, previous, b, maxString).value;
            && |p.value| == n && (forall s :: s in p.value ==> |s.subject| <= maxString && |s.subject| < 0x1_0000_0000)
            && PutScopeList(p.value, p.rest) == b
  {
    hide GetScope, PutScope, ScopeLess;
    if n > 0 {
      PutBackScope(b, maxString);
      var s := GetScope(b, maxString).value;
      PutBackScopesAfter(n - 1, Some(s.value), s.rest, maxString);
    }
  }

  lemma PutBackScopes(b: Bytes, maxScopes: nat, maxString: nat)
    requires GetScopes(b, maxScopes, maxString).Ok?
    ensures var p := GetScopes(b, maxScopes, maxString).value;
            && |p.value| <= maxScopes && |p.value| < 0x1_0000_0000
            && (forall s :: s in p.value ==> |s.subject| <= maxString && |s.subject| < 0x1_0000_0000)
            && PutScopes(p.value, p.rest) == b
            && ScopesWell(p.value)
  {
    hide GetScopesAfter, PutScopeList, ScopesWell, PutU32;
    var n := GetU32(b).value;
    PutBackU32(b);
    PutBackScopesAfter(n.value, None, n.rest, maxString);
    AcceptedScopesWell(n.value, None, n.rest, maxString);
  }

  /** Whatever is accepted is a canonical set of well-formed scopes. */
  lemma {:induction false} AcceptedScopesWell(n: nat, previous: Option<Scope>, b: Bytes, maxString: nat)
    requires GetScopesAfter(n, previous, b, maxString).Ok?
    ensures var scopes := GetScopesAfter(n, previous, b, maxString).value.value;
            && |scopes| == n && ScopesWell(scopes)
            && (previous.Some? ==> forall i :: 0 <= i < n ==> ScopeLess(previous.value, scopes[i]))
  {
    hide IsIdentifierText, ScopeLess, ScopesWell;
    if n == 0 {
      NoScopesWell();
    } else {
      var s := GetScope(b, maxString).value;
      AcceptedScopesWell(n - 1, Some(s.value), s.rest, maxString);
      FirstAccepted(previous, s.value, GetScopesAfter(n - 1, Some(s.value), s.rest, maxString).value.value);
    }
  }

  lemma NoScopesWell()
    ensures ScopesWell([])
  {
  }

  lemma FirstAccepted(previous: Option<Scope>, first: Scope, rest: seq<Scope>)
    requires ScopesWell(rest) && IsIdentifierText(first.subject, MAX_SUBJECT)
    requires (forall i :: 0 <= i < |rest| ==> ScopeLess(first, rest[i])) && (previous.Some? ==> ScopeLess(previous.value, first))
    ensures ScopesWell([first] + rest)
    ensures previous.Some? ==> forall i :: 0 <= i < |rest| + 1 ==> ScopeLess(previous.value, ([first] + rest)[i])
  {
    hide ScopeLess, IsIdentifierText;
    ScopeLessIsStrict();
    var scopes := [first] + rest;
    forall i, j | 0 <= i < j < |scopes|
      ensures ScopeLess(scopes[i], scopes[j])
    {
      assert scopes[j] == rest[j - 1];
      assert i > 0 ==> scopes[i] == rest[i - 1];
    }
  }
}
