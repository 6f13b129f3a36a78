/** Machine integers, identifiers and the byte order shared by every other module. */
module Basics {

  const U64_MAX: int := 0xFFFF_FFFF_FFFF_FFFF

  type Byte = x: int | 0 <= x < 0x100
  type U16 = x: int | 0 <= x < 0x1_0000
  type U32 = x: int | 0 <= x < 0x1_0000_0000
  type U64 = x: int | 0 <= x <= 0xFFFF_FFFF_FFFF_FFFF

  type Bytes = seq<Byte>

  /** A 128-bit identifier, read as one big-endian number: comparing two of them
      as numbers is comparing their sixteen bytes from the first to the last. */
  type Id = x: int | 0 <= x < 0x1_0000_0000_0000_0000_0000_0000_0000_0000

  /** A 256-bit digest, read as one big-endian number. */
  type Digest = x: int |
    0 <= x < 0x1_0000_0000_0000_0000_0000_0000_0000_0000_0000_0000_0000_0000_0000_0000_0000_0000

  const NIL: Id := 0

  datatype Option<+T> = None | Some(value: T)

  datatype Result<+T, +E> = Ok(value: T) | Err(error: E) {
    predicate IsFailure() { Err? }

    function PropagateFailure<U>(): Result<U, E>
      requires Err?
    {
      Err(error)
    }

    function Extract(): T
      requires Ok?
    {
      value
    }
  }

  /** Checked increment of a 64-bit counter: the maximum has no successor. */
  function Next(x: U64): (r: Option<U64>)
    ensures r.None? <==> x == U64_MAX
    ensures r.Some? ==> x < r.value <= x + 1
  {
    if x == U64_MAX then None else Some(x + 1)
  }

  /** Checked addition of 64-bit counters, guarded by a subtraction that cannot wrap. */
  function Plus(x: U64, delta: U64): (r: Option<U64>)
    ensures r.None? <==> x + delta > U64_MAX
    ensures r.Some? ==> r.value - delta == x
  {
    if delta > U64_MAX - x then None else Some(x + delta)
  }

  /** Byte-wise lexicographic order; a proper prefix comes first. */
  predicate BytesLess(a: Bytes, b: Bytes) {
    b != [] && (a == [] || a[0] < b[0] || (a[0] == b[0] && BytesLess(a[1..], b[1..])))
  }

  lemma {:induction false} BytesLessTotal(a: Bytes, b: Bytes)
    ensures BytesLess(a, b) || a == b || BytesLess(b, a)
  {
    if a != [] && b != [] && a[0] == b[0] {
      BytesLessTotal(a[1..], b[1..]);
      if a[1..] == b[1..] {
        assert a == [a[0]] + a[1..] == [b[0]] + b[1..] == b;
      }
    }
  }

  lemma {:induction false} BytesLessAsymmetric(a: Bytes, b: Bytes)
    requires BytesLess(a, b)
    ensures a != b && !BytesLess(b, a)
  {
    if a != [] && a[0] == b[0] {
      BytesLessAsymmetric(a[1..], b[1..]);
    }
  }

  lemma {:induction false} BytesLessTransitive(a: Bytes, b: Bytes, c: Bytes)
    requires BytesLess(a, b) && BytesLess(b, c)
    ensures BytesLess(a, c)
  {
    if a != [] && a[0] == b[0] == c[0] {
      BytesLessTransitive(a[1..], b[1..], c[1..]);
    }
  }
}
