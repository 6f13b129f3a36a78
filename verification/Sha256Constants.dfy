/** The constants of SHA-256 against the definition FIPS 180-4 gives of them: the first 32 bits of the
    fractional parts of the cube roots of the first 64 primes (section 4.2.2), and of the square roots of
    the first eight (section 5.3.3). */
module Sha256Constants {
  import opened Basics
  import opened Sha256

  // ---- the first 64 primes -----------------------------------------------

  function Times(d: nat, k: nat): nat {
    d * k
  }

  ghost predicate Divides(d: nat, n: nat) {
    exists k :: Times(d, k) == n
  }

  ghost predicate Prime(n: nat) {
    n >= 2 && forall d :: 2 <= d < n ==> !Divides(d, n)
  }

  /** Not divisible by a prime below 19, other than itself. */
  predicate Sieved(n: nat) {
    && n >= 2
    && (n == 2 || n % 2 != 0) && (n == 3 || n % 3 != 0) && (n == 5 || n % 5 != 0) && (n == 7 || n % 7 != 0)
    && (n == 11 || n % 11 != 0) && (n == 13 || n % 13 != 0) && (n == 17 || n % 17 != 0)
  }

  lemma DividesThrough(q: nat, m: nat, n: nat)
    requires Divides(q, m) && Divides(m, n)
    ensures Divides(q, n)
  {
    var a: nat :| Times(q, a) == m;
    var b: nat :| Times(m, b) == n;
    Associates(q, a, b);
  }

  lemma Associates(q: nat, a: nat, b: nat)
    ensures Times(Times(q, a), b) == Times(q, a * b)
  {
  }

  lemma NoRemainder(q: nat, k: nat)
    requires q != 0
    ensures Times(q, k) % q == 0
  {
    var j := k - q * k / q;
    assert q * j == q * k % q;
    assert j >= 1 ==> q * j >= q;
    assert j <= -1 ==> q * j + q <= 0;
  }

  lemma RemainderDivides(q: nat, n: nat)
    requires q != 0
    ensures n % q == 0 ==> Divides(q, n)
  {
    assert n % q == 0 ==> Times(q, n / q) == n;
  }

  /** A proper divisor up to 18 is caught by the sieve. */
  lemma SmallDivisor(n: nat, m: nat)
    requires 2 <= m <= 18 && m < n && Divides(m, n)
    ensures !Sieved(n)
  {
    var q := if m % 2 == 0 then 2 else if m % 3 == 0 then 3 else if m % 5 == 0 then 5 else if m % 7 == 0 then 7 else m;
    RemainderDivides(q, m);
    DividesThrough(q, m, n);
    var k: nat :| Times(q, k) == n;
    NoRemainder(q, k);
    hide Times, Divides;
    assert q == 2 || q == 3 || q == 5 || q == 7 || q == 11 || q == 13 || q == 17;
  }

  /** Below 19 squared, the sieve finds exactly the primes. */
  lemma SievedIff(n: nat)
    requires n < 361
    ensures Sieved(n) <==> Prime(n)
  {
    if Sieved(n) {
      forall d | 2 <= d < n
        ensures !Divides(d, n)
      {
        if Divides(d, n) {
          var e := Cofactor(d, n);
          SmallDivisor(n, if d <= 18 then d else e);
        }
      }
    } else if n >= 2 {
      var q := if n != 2 && n % 2 == 0 then 2 else if n != 3 && n % 3 == 0 then 3 else if n != 5 && n % 5 == 0 then 5
               else if n != 7 && n % 7 == 0 then 7 else if n != 11 && n % 11 == 0 then 11 else if n != 13 && n % 13 == 0 then 13 else 17;
      RemainderDivides(q, n);
    }
  }

  lemma Cofactor(d: nat, n: nat) returns (e: nat)
    requires 2 <= d < n < 361 && Divides(d, n)
    ensures 2 <= e < n && Divides(e, n) && (d <= 18 || e <= 18)
  {
    e :| Times(d, e) == n;
    assert Times(e, d) == n;
    Bounds(d, e);
  }

  lemma Bounds(d: nat, e: nat)
    requires d >= 2 && d < Times(d, e) < 361
    ensures 2 <= e < Times(d, e) && (d <= 18 || e <= 18)
  {
    assert d >= 19 && e >= 19 ==> d * e >= 19 * e;
    assert e >= 1 ==> d * e >= 2 * e;
  }

  /** Between the odd numbers p and q, at most 14 apart, no odd number passes the sieve. */
  predicate Gap(p: nat, q: nat) {
    && p % 2 == 1 && p < q <= p + 14
    && (p + 2 < q ==> !Sieved(p + 2)) && (p + 4 < q ==> !Sieved(p + 4)) && (p + 6 < q ==> !Sieved(p + 6))
    && (p + 8 < q ==> !Sieved(p + 8)) && (p + 10 < q ==> !Sieved(p + 10)) && (p + 12 < q ==> !Sieved(p + 12))
  }

  lemma NoneInGap(p: nat, q: nat, n: nat)
    requires Gap(p, q) && 2 < p < n < q
    ensures !Sieved(n)
  {
    hide Sieved;
    EvenFails(n);
  }

  lemma EvenFails(n: nat)
    requires n > 2
    ensures n % 2 == 0 ==> !Sieved(n)
  {
  }

  /** How many primes there are below n. */
  ghost function PrimesBelow(n: nat): nat {
    if n == 0 then 0 else PrimesBelow(n - 1) + (if Prime(n - 1) then 1 else 0)
  }

  /** The prime that i primes precede. */
  ghost predicate Nth(i: nat, p: nat) {
    Prime(p) && PrimesBelow(p) == i
  }

  lemma {:induction false} NoneBetween(m: nat, n: nat)
    requires m <= n && forall k :: m <= k < n ==> !Prime(k)
    ensures PrimesBelow(n) == PrimesBelow(m)
  {
    hide Prime;
    if m < n {
      NoneBetween(m, n - 1);
    }
  }

  lemma NextPrime(i: nat, p: nat, q: nat)
    requires Nth(i, p) && p < q < 361 && Sieved(q) && if p == 2 then q == 3 else p > 2 && Gap(p, q)
    ensures Nth(i + 1, q)
  {
    hide Prime, Sieved, Gap;
    SievedIff(q);
    forall k | p < k < q
      ensures !Prime(k)
    {
      NoneInGap(p, q, k);
      SievedIff(k);
    }
    NoneBetween(p + 1, q);
  }

  lemma FirstPrime()
    ensures Nth(0, 2)
  {
    hide Prime;
    SievedIff(0);
    SievedIff(1);
    SievedIff(2);
    NoneBetween(0, 2);
  }

  // ---- cube roots and square roots ---------------------------------------

  const TWO32: nat := 0x1_0000_0000

  function Square(n: nat): nat {
    n * n
  }

  function Cube(n: nat): nat {
    n * n * n
  }

  /** The root of p has integer part c, and k is the first 32 bits of its fractional part. */
  predicate CubeRootIs(p: nat, c: nat, k: nat) {
    && Cube(c) <= p < Cube(c + 1)
    && Cube(c * TWO32 + k) <= p * Cube(TWO32) < Cube(c * TWO32 + k + 1)
  }

  predicate SquareRootIs(p: nat, c: nat, k: nat) {
    && Square(c) <= p < Square(c + 1)
    && Square(c * TWO32 + k) <= p * Square(TWO32) < Square(c * TWO32 + k + 1)
  }

  function RoundValue(i: nat): nat
    requires i < 64
  {
    RoundConstant(i) as nat
  }

  function WholeCubeRoot(p: nat): nat {
    if p < 8 then 1 else if p < 27 then 2 else if p < 64 then 3 else if p < 125 then 4 else if p < 216 then 5 else 6
  }

  ghost predicate CubeRootOfNth(i: nat, p: nat, c: nat, k: nat) {
    Nth(i, p) && CubeRootIs(p, c, k)
  }

  /** The constant in place i is what the standard says of the prime in place i. */
  ghost predicate IsCubeRoot(i: nat)
    requires i < 64
  {
    exists p, c :: CubeRootOfNth(i, p, c, RoundValue(i))
  }

  lemma Next(i: nat, p: nat, q: nat)
    requires Nth(i, p) && p < q < 361 && Sieved(q) && if p == 2 then q == 3 else p > 2 && Gap(p, q)
    requires i < 63 && CubeRootIs(q, WholeCubeRoot(q), RoundValue(i + 1))
    ensures Nth(i + 1, q) && IsCubeRoot(i + 1)
  {
    hide Nth, CubeRootIs, Sieved, Gap, RoundValue;
    NextPrime(i, p, q);
    assert CubeRootOfNth(i + 1, q, WholeCubeRoot(q), RoundValue(i + 1));
  }

  lemma First()
    ensures Nth(0, 2) && IsCubeRoot(0)
  {
    hide Nth;
    FirstPrime();
    assert CubeRootOfNth(0, 2, 1, RoundValue(0));
  }

  ghost predicate RowIsRight(r: nat)
    requires r < 8
  {
    && IsCubeRoot(8 * r) && IsCubeRoot(8 * r + 1) && IsCubeRoot(8 * r + 2) && IsCubeRoot(8 * r + 3)
    && IsCubeRoot(8 * r + 4) && IsCubeRoot(8 * r + 5) && IsCubeRoot(8 * r + 6) && IsCubeRoot(8 * r + 7)
  }

  lemma Row0()
    ensures Nth(7, 19) && RowIsRight(0)
  {
    hide Nth, IsCubeRoot;
    First();
    Next(0, 2, 3);
    Next(1, 3, 5);
    Next(2, 5, 7);
    Next(3, 7, 11);
    Next(4, 11, 13);
    Next(5, 13, 17);
    Next(6, 17, 19);
  }

  lemma Row1()
    requires Nth(7, 19)
    ensures Nth(15, 53) && RowIsRight(1)
  {
    hide Nth, IsCubeRoot;
    Next(7, 19, 23);
    Next(8, 23, 29);
    Next(9, 29, 31);
    Next(10, 31, 37);
    Next(11, 37, 41);
    Next(12, 41, 43);
    Next(13, 43, 47);
    Next(14, 47, 53);
  }

  lemma Row2()
    requires Nth(15, 53)
    ensures Nth(23, 89) && RowIsRight(2)
  {
    hide Nth, IsCubeRoot;
    Next(15, 53, 59);
    Next(16, 59, 61);
    Next(17, 61, 67);
    Next(18, 67, 71);
    Next(19, 71, 73);
    Next(20, 73, 79);
    Next(21, 79, 83);
    Next(22, 83, 89);
  }

  lemma Row3()
    requires Nth(23, 89)
    ensures Nth(31, 131) && RowIsRight(3)
  {
    hide Nth, IsCubeRoot;
    Next(23, 89, 97);
    Next(24, 97, 101);
    Next(25, 101, 103);
    Next(26, 103, 107);
    Next(27, 107, 109);
    Next(28, 109, 113);
    Next(29, 113, 127);
    Next(30, 127, 131);
  }

  lemma Row4()
    requires Nth(31, 131)
    ensures Nth(39, 173) && RowIsRight(4)
  {
    hide Nth, IsCubeRoot;
    Next(31, 131, 137);
    Next(32, 137, 139);
    Next(33, 139, 149);
    Next(34, 149, 151);
    Next(35, 151, 157);
    Next(36, 157, 163);
    Next(37, 163, 167);
    Next(38, 167, 173);
  }

  lemma Row5()
    requires Nth(39, 173)
    ensures Nth(47, 223) && RowIsRight(5)
  {
    hide Nth, IsCubeRoot;
    Next(39, 173, 179);
    Next(40, 179, 181);
    Next(41, 181, 191);
    Next(42, 191, 193);
    Next(43, 193, 197);
    Next(44, 197, 199);
    Next(45, 199, 211);
    Next(46, 211, 223);
  }

  lemma Row6()
    requires Nth(47, 223)
    ensures Nth(55, 263) && RowIsRight(6)
  {
    hide Nth, IsCubeRoot;
    Next(47, 223, 227);
    Next(48, 227, 229);
    Next(49, 229, 233);
    Next(50, 233, 239);
    Next(51, 239, 241);
    Next(52, 241, 251);
    Next(53, 251, 257);
    Next(54, 257, 263);
  }

  lemma Row7()
    requires Nth(55, 263)
    ensures Nth(63, 311) && RowIsRight(7)
  {
    hide Nth, IsCubeRoot;
    Next(55, 263, 269);
    Next(56, 269, 271);
    Next(57, 271, 277);
    Next(58, 277, 281);
    Next(59, 281, 283);
    Next(60, 283, 293);
    Next(61, 293, 307);
    Next(62, 307, 311);
  }

  lemma RowsAreRight()
    ensures forall r :: 0 <= r < 8 ==> RowIsRight(r)
  {
    hide Nth, RowIsRight;
    Row0();
    Row1();
    Row2();
    Row3();
    Row4();
    Row5();
    Row6();
    Row7();
  }

  /** Every round constant is what the standard says: the first 32 bits of the fractional part of the
      cube root of the prime in its place. */
  lemma RoundConstantsAreCubeRoots(i: nat)
    requires i < 64
    ensures IsCubeRoot(i)
  {
    hide IsCubeRoot;
    RowsAreRight();
    assert RowIsRight(i / 8) && i == 8 * (i / 8) + i % 8;
  }

  /** The words of the initial hash value, in order. */
  function InitialValue(i: nat): nat
    requires i < 8
  {
    [INITIAL.a, INITIAL.b, INITIAL.c, INITIAL.d, INITIAL.e, INITIAL.f, INITIAL.g, INITIAL.h][i] as nat
  }

  ghost predicate SquareRootOfNth(i: nat, p: nat, c: nat, k: nat) {
    Nth(i, p) && SquareRootIs(p, c, k)
  }

  ghost predicate IsSquareRoot(i: nat)
    requires i < 8
  {
    exists p, c :: SquareRootOfNth(i, p, c, InitialValue(i))
  }

  lemma FirstEightPrimes()
    ensures Nth(0, 2) && Nth(1, 3) && Nth(2, 5) && Nth(3, 7) && Nth(4, 11) && Nth(5, 13) && Nth(6, 17) && Nth(7, 19)
  {
    hide Nth;
    FirstPrime();
    NextPrime(0, 2, 3);
    NextPrime(1, 3, 5);
    NextPrime(2, 5, 7);
    NextPrime(3, 7, 11);
    NextPrime(4, 11, 13);
    NextPrime(5, 13, 17);
    NextPrime(6, 17, 19);
  }

  /** And every initial word the same of the square root. */
  lemma InitialWordsAreSquareRoots(i: nat)
    requires i < 8
    ensures IsSquareRoot(i)
  {
    hide Nth;
    FirstEightPrimes();
    assert SquareRootOfNth(0, 2, 1, InitialValue(0));
    assert SquareRootOfNth(1, 3, 1, InitialValue(1));
    assert SquareRootOfNth(2, 5, 2, InitialValue(2));
    assert SquareRootOfNth(3, 7, 2, InitialValue(3));
    assert SquareRootOfNth(4, 11, 3, InitialValue(4));
    assert SquareRootOfNth(5, 13, 3, InitialValue(5));
    assert SquareRootOfNth(6, 17, 4, InitialValue(6));
    assert SquareRootOfNth(7, 19, 4, InitialValue(7));
  }
}
