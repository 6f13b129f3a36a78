/** Sets of authority scopes, kept as a sorted vector. */
module Scopes {
  import opened Basics
  import opened Model
  import opened Sorting
  import opened Forest
  import opened Identity

  const MAX_SUBJECT: nat := 128

  function KindCode(kind: ScopeKind): (c: Byte)
    ensures KindFromCode(c) == Some(kind)
  {
    match kind
    case Fabric => 0
    case Site => 1
    case Domain => 2
    case EntityClass => 3
    case Entity => 4
    case OperationFamily => 5
  }

  function KindFromCode(c: Byte): Option<ScopeKind> {
    if c == 0 then Some(Fabric) else if c == 1 then Some(Site) else if c == 2 then Some(Domain)
    else if c == 3 then Some(EntityClass) else if c == 4 then Some(Entity) else if c == 5 then Some(OperationFamily)
    else None
  }

  /** By kind, then by subject. */
  predicate ScopeLess(a: Scope, b: Scope) {
    KindCode(a.kind) < KindCode(b.kind) || (a.kind == b.kind && BytesLess(a.subject, b.subject))
  }

  lemma ScopeLessIsStrict()
    ensures StrictOrder(ScopeLess)
  {
    forall a: Scope, b: Scope | ScopeLess(a, b)
      ensures !ScopeLess(b, a)
    {
      if a.kind == b.kind {
        BytesLessAsymmetric(a.subject, b.subject);
      }
    }
    forall a: Scope, b: Scope, c: Scope | ScopeLess(a, b) && ScopeLess(b, c)
      ensures ScopeLess(a, c)
    {
      if a.kind == b.kind == c.kind {
        BytesLessTransitive(a.subject, b.subject, c.subject);
      }
    }
  }

  lemma ScopeLessTotal(a: Scope, b: Scope)
    ensures ScopeLess(a, b) || a == b || ScopeLess(b, a)
    ensures a == b ==> !ScopeLess(a, b)
  {
    BytesLessTotal(a.subject, b.subject);
    if a == b && BytesLess(a.subject, b.subject) {
      BytesLessAsymmetric(a.subject, b.subject);
    }
  }

  predicate Canonical(scopes: seq<Scope>) {
    Ordered(scopes, ScopeLess)
  }

  /** Members of two canonical vectors determine the vectors. */
  lemma CanonicalScopesUnique(xs: seq<Scope>, ys: seq<Scope>)
    requires Canonical(xs) && Canonical(ys) && (forall s :: s in xs <==> s in ys)
    ensures xs == ys
  {
    ScopeLessIsStrict();
    forall s: Scope
      ensures multiset(xs)[s] == multiset(ys)[s]
    {
      OnceEach(xs, s);
      OnceEach(ys, s);
    }
    OrderedIsUnique(xs, ys, ScopeLess);
  }

  lemma OnceEach(xs: seq<Scope>, s: Scope)
    requires Canonical(xs)
    ensures multiset(xs)[s] == if s in xs then 1 else 0
  {
    if s in xs {
      ScopeLessTotal(s, s);
      var a :| 0 <= a < |xs| && xs[a] == s;
      assert xs == xs[..a] + [xs[a]] + xs[a + 1..];
      assert s !in xs[..a] && s !in xs[a + 1..];
    }
  }

  /** First position whose scope is not less than the one sought, by halving. */
  method LowerBound(scopes: seq<Scope>, scope: Scope) returns (p: nat)
    requires Canonical(scopes)
    ensures p <= |scopes|
    ensures forall i :: 0 <= i < p ==> ScopeLess(scopes[i], scope)
    ensures forall i :: p <= i < |scopes| ==> !ScopeLess(scopes[i], scope)
  {
    ScopeLessIsStrict();
    var first: nat, count: nat := 0, |scopes|;
    while count > 0
      invariant first + count <= |scopes|
      invariant forall i :: 0 <= i < first ==> ScopeLess(scopes[i], scope)
      invariant forall i :: first + count <= i < |scopes| ==> !ScopeLess(scopes[i], scope)
    {
      var half := count / 2;
      if ScopeLess(scopes[first + half], scope) {
        forall i | 0 <= i <= first + half
          ensures ScopeLess(scopes[i], scope)
        {
          assert i < first + half ==> ScopeLess(scopes[i], scopes[first + half]);
        }
        first, count := first + half + 1, count - half - 1;
      } else {
        forall i | first + half <= i < |scopes|
          ensures !ScopeLess(scopes[i], scope)
        {
          assert first + half < i ==> ScopeLess(scopes[first + half], scopes[i]);
        }
        count := half;
      }
    }
    p := first;
  }

  class ScopeSet {
    var scopes: seq<Scope>

    predicate Valid()
      reads this
    {
      Canonical(scopes)
    }

    constructor ()
      ensures Valid() && scopes == []
    {
      scopes := [];
    }

    /** Adds a scope unless the set is full; adding a member again always succeeds. */
    method Insert(scope: Scope, maxScopes: nat) returns (ok: bool)
      requires Valid()
      modifies this
      ensures Valid()
      ensures ok <==> scope in old(scopes) || |old(scopes)| < maxScopes
      ensures forall s :: s in scopes <==> s in old(scopes) || (ok && s == scope)
      ensures |scopes| == |old(scopes)| + (if ok && scope !in old(scopes) then 1 else 0)
    {
      var position := LowerBound(scopes, scope);
      FoundAtBound(scopes, scope, position);
      if position < |scopes| && scopes[position] == scope {
        return true;
      }
      if |scopes| >= maxScopes {
        return false;
      }
      InsertedIsCanonical(scopes, scope, position);
      scopes := scopes[..position] + [scope] + scopes[position..];
      ok := true;
    }

    method Contains(scope: Scope) returns (r: bool)
      requires Valid()
      ensures r <==> scope in scopes
    {
      var position := LowerBound(scopes, scope);
      FoundAtBound(scopes, scope, position);
      r := position < |scopes| && scopes[position] == scope;
    }

    method ContainsAll(other: ScopeSet) returns (r: bool)
      requires Valid() && other.Valid()
      ensures r <==> ScopesWithin(other.scopes, scopes)
    {
      for i := 0 to |other.scopes|
        invariant forall k :: 0 <= k < i ==> other.scopes[k] in scopes
      {
        var held := Contains(other.scopes[i]);
        if !held {
          return false;
        }
      }
      return true;
    }
  }

  lemma FoundAtBound(scopes: seq<Scope>, scope: Scope, p: nat)
    requires Canonical(scopes) && p <= |scopes|
    requires forall i :: 0 <= i < p ==> ScopeLess(scopes[i], scope)
    requires forall i :: p <= i < |scopes| ==> !ScopeLess(scopes[i], scope)
    ensures scope in scopes <==> p < |scopes| && scopes[p] == scope
  {
    ScopeLessTotal(scope, scope);
    if scope in scopes {
      var k :| 0 <= k < |scopes| && scopes[k] == scope;
      assert k >= p;
    }
  }

  lemma InsertedIsCanonical(scopes: seq<Scope>, scope: Scope, p: nat)
    requires Canonical(scopes) && p <= |scopes| && scope !in scopes
    requires forall i :: 0 <= i < p ==> ScopeLess(scopes[i], scope)
    requires forall i :: p <= i < |scopes| ==> !ScopeLess(scopes[i], scope)
    ensures Canonical(scopes[..p] + [scope] + scopes[p..])
  {
    var r := scopes[..p] + [scope] + scopes[p..];
    forall i, j | 0 <= i < j < |r|
      ensures ScopeLess(r[i], r[j])
    {
      if i < p && j > p {
        assert ScopeLess(scopes[i], scopes[j - 1]);
      } else if i == p {
        ScopeLessTotal(scope, scopes[j - 1]);
      } else if i > p {
        assert ScopeLess(scopes[i - 1], scopes[j - 1]);
      } else if j < p {
        assert ScopeLess(scopes[i], scopes[j]);
      }
    }
  }
}
