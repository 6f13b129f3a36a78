/** The byte encoding: fixed-width integers, length-prefixed text, and the writer and reader
    that produce and consume them.

    The format is given as functions. `PutX(v, tail)` is the encoding of v followed by tail, and
    `GetX(b)` reads one value off the front of b; each Put promises that the matching Get gives
    its argument back and leaves the tail. */
module Encoding {
  import opened Basics

  datatype CodecError = BadInput | OverLimit

  datatype Parsed<+T> = Parsed(value: T, rest: Bytes)

  type Read<+T> = Result<Parsed<T>, CodecError>

  const MAX_BYTES: nat := 64 * 1024 * 1024

  // ---- digits ------------------------------------------------------------

  function Pow256(n: nat): (r: nat)
    ensures r > 0
  {
    if n == 0 then 1 else 256 * Pow256(n - 1)
  }

  /** The n low bytes of v, least significant first. */
  function LittleBytes(v: nat, n: nat): (b: Bytes)
    ensures |b| == n
  {
    if n == 0 then [] else [v % 256] + LittleBytes(v / 256, n - 1)
  }

  function LittleValue(b: Bytes): (v: nat)
    ensures v < Pow256(|b|)
  {
    if b == [] then 0 else b[0] + 256 * LittleValue(b[1..])
  }

  /** The n low bytes of v, most significant first. */
  function BigBytes(v: nat, n: nat): (b: Bytes)
    ensures |b| == n
  {
    if n == 0 then [] else BigBytes(v / 256, n - 1) + [v % 256]
  }

  function BigValue(b: Bytes): (v: nat)
    ensures v < Pow256(|b|)
  {
    if b == [] then 0 else 256 * BigValue(b[..|b| - 1]) + b[|b| - 1]
  }

  lemma {:induction false} LittleRoundTrip(v: nat, n: nat)
    requires v < Pow256(n)
    ensures LittleValue(LittleBytes(v, n)) == v
  {
    if n > 0 {
      assert LittleBytes(v, n)[1..] == LittleBytes(v / 256, n - 1);
      LittleRoundTrip(v / 256, n - 1);
    }
  }

  lemma {:induction false} LittleInverse(b: Bytes)
    ensures LittleBytes(LittleValue(b), |b|) == b
  {
    if b != [] {
      var v := LittleValue(b);
      assert v % 256 == b[0] && v / 256 == LittleValue(b[1..]);
      LittleInverse(b[1..]);
      assert b == [b[0]] + b[1..];
    }
  }

  lemma {:induction false} BigRoundTrip(v: nat, n: nat)
    requires v < Pow256(n)
    ensures BigValue(BigBytes(v, n)) == v
  {
    if n > 0 {
      var b := BigBytes(v, n);
      assert b[..n - 1] == BigBytes(v / 256, n - 1);
      BigRoundTrip(v / 256, n - 1);
    }
  }

  lemma {:induction false} BigInverse(b: Bytes)
    ensures BigBytes(BigValue(b), |b|) == b
  {
    if b != [] {
      var last := |b| - 1;
      var v := BigValue(b);
      assert v % 256 == b[last] && v / 256 == BigValue(b[..last]);
      BigInverse(b[..last]);
      assert b == b[..last] + [b[last]];
    }
  }

  lemma Widths()
    ensures Pow256(1) == 0x100 && Pow256(2) == 0x1_0000 && Pow256(4) == 0x1_0000_0000
    ensures Pow256(8) == 0x1_0000_0000_0000_0000
    ensures Pow256(16) == 0x1_0000_0000_0000_0000_0000_0000_0000_0000
    ensures Pow256(32) == 0x1_0000_0000_0000_0000_0000_0000_0000_0000_0000_0000_0000_0000_0000_0000_0000_0000
  {
    assert Pow256(4) == 256 * 256 * 256 * 256;
    assert Pow256(8) == 256 * 256 * 256 * 256 * Pow256(4);
    assert Pow256(12) == 256 * 256 * 256 * 256 * Pow256(8);
    assert Pow256(16) == 256 * 256 * 256 * 256 * Pow256(12);
    assert Pow256(20) == 256 * 256 * 256 * 256 * Pow256(16);
    assert Pow256(24) == 256 * 256 * 256 * 256 * Pow256(20);
    assert Pow256(28) == 256 * 256 * 256 * 256 * Pow256(24);
    assert Pow256(32) == 256 * 256 * 256 * 256 * Pow256(28);
  }

  // ---- integers ----------------------------------------------------------

  function GetLittle(b: Bytes, n: nat): (r: Read<nat>)
    ensures r.Ok? ==> r.value.value < Pow256(n) && |r.value.rest| + n == |b|
  {
    if |b| < n then Err(BadInput) else Ok(Parsed(LittleValue(b[..n]), b[n..]))
  }

  function PutLittle(v: nat, n: nat, tail: Bytes): (b: Bytes)
    requires v < Pow256(n)
    ensures GetLittle(b, n) == Ok(Parsed(v, tail)) && |b| == n + |tail|
  {
    LittleRoundTrip(v, n);
    var b := LittleBytes(v, n) + tail;
    assert b[..n] == LittleBytes(v, n) && b[n..] == tail;
    b
  }

  lemma PutBackLittle(b: Bytes, n: nat)
    requires GetLittle(b, n).Ok?
    ensures var p := GetLittle(b, n).value; PutLittle(p.value, n, p.rest) == b
  {
    LittleInverse(b[..n]);
  }

  function GetU8(b: Bytes): (r: Read<Byte>)
    ensures r.Ok? ==> |r.value.rest| + 1 == |b|
  {
    if b == [] then Err(BadInput) else Ok(Parsed(b[0], b[1..]))
  }

  function PutU8(v: Byte, tail: Bytes): (b: Bytes)
    ensures GetU8(b) == Ok(Parsed(v, tail)) && |b| == 1 + |tail|
  {
    [v] + tail
  }

  function GetU16(b: Bytes): (r: Read<U16>)
    ensures r.Ok? ==> |r.value.rest| + 2 == |b|
  {
    Widths();
    var p :- GetLittle(b, 2);
    Ok(Parsed(p.value, p.rest))
  }

  function PutU16(v: U16, tail: Bytes): (b: Bytes)
    ensures GetU16(b) == Ok(Parsed(v, tail)) && |b| == 2 + |tail|
  {
    Widths();
    PutLittle(v, 2, tail)
  }

  function GetU32(b: Bytes): (r: Read<U32>)
    ensures r.Ok? ==> |r.value.rest| + 4 == |b|
  {
    Widths();
    var p :- GetLittle(b, 4);
    Ok(Parsed(p.value, p.rest))
  }

  function PutU32(v: U32, tail: Bytes): (b: Bytes)
    ensures GetU32(b) == Ok(Parsed(v, tail)) && |b| == 4 + |tail|
  {
    Widths();
    PutLittle(v, 4, tail)
  }

  function GetU64(b: Bytes): (r: Read<U64>)
    ensures r.Ok? ==> |r.value.rest| + 8 == |b|
  {
    Widths();
    var p :- GetLittle(b, 8);
    Ok(Parsed(p.value, p.rest))
  }

  function PutU64(v: U64, tail: Bytes): (b: Bytes)
    ensures GetU64(b) == Ok(Parsed(v, tail)) && |b| == 8 + |tail|
  {
    Widths();
    PutLittle(v, 8, tail)
  }

  // ---- identifiers and digests -------------------------------------------

  function GetId(b: Bytes): (r: Read<Id>)
    ensures r.Ok? ==> |r.value.rest| + 16 == |b|
  {
    Widths();
    if |b| < 16 then Err(BadInput) else Ok(Parsed(BigValue(b[..16]), b[16..]))
  }

  function PutId(v: Id, tail: Bytes): (b: Bytes)
    ensures GetId(b) == Ok(Parsed(v, tail)) && |b| == 16 + |tail|
  {
    Widths();
    BigRoundTrip(v, 16);
    var b := BigBytes(v, 16) + tail;
    assert b[..16] == BigBytes(v, 16) && b[16..] == tail;
    b
  }

  function GetDigest(b: Bytes): (r: Read<Digest>)
    ensures r.Ok? ==> |r.value.rest| + 32 == |b|
  {
    Widths();
    if |b| < 32 then Err(BadInput) else Ok(Parsed(BigValue(b[..32]), b[32..]))
  }

  function PutDigest(v: Digest, tail: Bytes): (b: Bytes)
    ensures GetDigest(b) == Ok(Parsed(v, tail)) && |b| == 32 + |tail|
  {
    Widths();
    BigRoundTrip(v, 32);
    var b := BigBytes(v, 32) + tail;
    assert b[..32] == BigBytes(v, 32) && b[32..] == tail;
    b
  }

  // ---- text --------------------------------------------------------------

  /** Reads a length-prefixed text, bounded twice: by the caller and by the configured limit. */
  function GetText(b: Bytes, maxLength: nat, maxString: nat): (r: Read<Bytes>)
    ensures r.Ok? ==> |r.value.value| <= maxLength && |r.value.value| <= maxString && |r.value.rest| + 4 + |r.value.value| == |b|
  {
    var n :- GetU32(b);
    if n.value > MAX_BYTES || n.value > maxLength || n.value > maxString then Err(OverLimit)
    else if n.value > |n.rest| then Err(BadInput)
    else Ok(Parsed(n.rest[..n.value], n.rest[n.value..]))
  }

  /** A count as it is written: in 32 bits, whatever it is. */
  function Low32(n: nat): (r: U32)
    ensures n < 0x1_0000_0000 ==> r == n
  {
    n % 0x1_0000_0000
  }

  /** The length field can hold the length of the text; a longer text is refused by the writer. */
  predicate Writes(text: Bytes) {
    |text| < 0x1_0000_0000
  }

  function PutText(text: Bytes, tail: Bytes): (b: Bytes)
    ensures forall m: nat, s: nat :: |text| <= MAX_BYTES && |text| <= m && |text| <= s ==> GetText(b, m, s) == Ok(Parsed(text, tail))
    ensures |b| == 4 + |text| + |tail|
  {
    assert (text + tail)[..|text|] == text && (text + tail)[|text|..] == tail;
    PutU32(Low32(|text|), text + tail)
  }

  // ---- reading back: what was read is what the bytes encode ---------------

  lemma PutBackU8(b: Bytes)
    requires GetU8(b).Ok?
    ensures var p := GetU8(b).value; PutU8(p.value, p.rest) == b
  {
    assert b == [b[0]] + b[1..];
  }

  lemma PutBackU16(b: Bytes)
    requires GetU16(b).Ok?
    ensures var p := GetU16(b).value; PutU16(p.value, p.rest) == b
  {
    PutBackLittle(b, 2);
  }

  lemma PutBackU32(b: Bytes)
    requires GetU32(b).Ok?
    ensures var p := GetU32(b).value; PutU32(p.value, p.rest) == b
  {
    PutBackLittle(b, 4);
  }

  lemma PutBackU64(b: Bytes)
    requires GetU64(b).Ok?
    ensures var p := GetU64(b).value; PutU64(p.value, p.rest) == b
  {
    PutBackLittle(b, 8);
  }

  lemma PutBackId(b: Bytes)
    requires GetId(b).Ok?
    ensures var p := GetId(b).value; PutId(p.value, p.rest) == b
  {
    BigInverse(b[..16]);
  }

  lemma PutBackText(b: Bytes, maxLength: nat, maxString: nat)
    requires GetText(b, maxLength, maxString).Ok?
    ensures var p := GetText(b, maxLength, maxString).value; |p.value| < 0x1_0000_0000 && PutText(p.value, p.rest) == b
  {
    PutBackU32(b);
    var n := GetU32(b).value;
    assert n.rest == n.rest[..n.value] + n.rest[n.value..];
  }

  // ---- the writer ---------------------------------------------------------

  class ByteWriter {
    var buffer: Bytes

    constructor ()
      ensures buffer == []
    {
      buffer := [];
    }

    method U8(v: Byte)
      modifies this
      ensures buffer == old(buffer) + [v]
    {
      buffer := buffer + [v];
    }

    /** Writes the n low bytes of v, one shift at a time. */
    method Little(v: nat, n: nat)
      modifies this
      ensures buffer == old(buffer) + LittleBytes(v, n)
    {
      var rest := v;
      for k := 0 to n
        invariant buffer + LittleBytes(rest, n - k) == old(buffer) + LittleBytes(v, n)
      {
        assert LittleBytes(rest, n - k) == [rest % 256] + LittleBytes(rest / 256, n - k - 1);
        assert buffer + [rest % 256] + LittleBytes(rest / 256, n - k - 1) == buffer + LittleBytes(rest, n - k);
        U8(rest % 256);
        rest := rest / 256;
      }
    }

    method Raw(bytes: Bytes)
      modifies this
      ensures buffer == old(buffer) + bytes
    {
      buffer := buffer + bytes;
    }

    method U16(v: U16)
      modifies this
      ensures forall tail: Bytes :: buffer + tail == old(buffer) + PutU16(v, tail)
    {
      Little(v, 2);
      AppendIsPut(old(buffer), LittleBytes(v, 2));
    }

    method U32(v: U32)
      modifies this
      ensures forall tail: Bytes :: buffer + tail == old(buffer) + PutU32(v, tail)
    {
      Little(v, 4);
      AppendIsPut(old(buffer), LittleBytes(v, 4));
    }

    method U64(v: U64)
      modifies this
      ensures forall tail: Bytes :: buffer + tail == old(buffer) + PutU64(v, tail)
    {
      Little(v, 8);
      AppendIsPut(old(buffer), LittleBytes(v, 8));
    }

    method Byte(v: Byte)
      modifies this
      ensures forall tail: Bytes :: buffer + tail == old(buffer) + PutU8(v, tail)
    {
      U8(v);
      AppendIsPut(old(buffer), [v]);
    }

    /** Sixteen bytes of an identifier, as they stand. */
    method Fixed16(v: Id)
      modifies this
      ensures forall tail: Bytes :: buffer + tail == old(buffer) + PutId(v, tail)
    {
      Raw(BigBytes(v, 16));
      AppendIsPut(old(buffer), BigBytes(v, 16));
    }

    method Fixed32(v: Digest)
      modifies this
      ensures forall tail: Bytes :: buffer + tail == old(buffer) + PutDigest(v, tail)
    {
      Raw(BigBytes(v, 32));
      AppendIsPut(old(buffer), BigBytes(v, 32));
    }

    /** Writes a text behind its length; a text too long for the length field is refused. */
    method Text(text: Bytes) returns (ok: bool)
      modifies this
      ensures ok <==> |text| < 0x1_0000_0000
      ensures ok ==> forall tail: Bytes :: buffer + tail == old(buffer) + PutText(text, tail)
      ensures !ok ==> buffer == old(buffer)
    {
      if |text| >= 0x1_0000_0000 {
        return false;
      }
      ghost var before := buffer;
      U32(|text|);
      ghost var counted := buffer;
      Raw(text);
      forall tail: Bytes
        ensures buffer + tail == before + PutText(text, tail)
      {
        assert buffer + tail == counted + (text + tail) == before + PutU32(|text|, text + tail);
      }
      ok := true;
    }
  }

  lemma AppendIsPut(before: Bytes, bytes: Bytes)
    ensures forall tail: Bytes :: (before + bytes) + tail == before + (bytes + tail)
  {
  }

  // ---- the reader ---------------------------------------------------------

  class ByteReader {
    const data: Bytes
    var offset: nat

    ghost predicate Valid()
      reads this
    {
      offset <= |data|
    }

    /** What has not been read yet. */
    ghost function Rest(): Bytes
      reads this
      requires Valid()
    {
      data[offset..]
    }

    /** A read that went as the format says: same value and the rest left over, or the same error. */
    ghost predicate Reads<T(!new)>(r: Result<T, CodecError>, spec: Read<T>)
      reads this
      requires Valid()
    {
      match spec
      case Ok(p) => r == Ok(p.value) && Rest() == p.rest
      case Err(e) => r == Err(e)
    }

    constructor (bytes: Bytes)
      ensures Valid() && data == bytes && Rest() == bytes
    {
      data, offset := bytes, 0;
    }

    method U8() returns (r: Result<Byte, CodecError>)
      requires Valid()
      modifies this
      ensures Valid()
      ensures r.Ok? <==> old(Rest()) != []
      ensures r.Ok? ==> GetU8(old(Rest())) == Ok(Parsed(r.value, Rest()))
      ensures r.Err? ==> r.error == BadInput && Rest() == []
    {
      if offset == |data| {
        return Err(BadInput);
      }
      r := Ok(data[offset]);
      offset := offset + 1;
    }

    /** Assembles n bytes into an integer, least significant first. */
    method Little(n: nat) returns (r: Result<nat, CodecError>)
      requires Valid()
      modifies this
      ensures Valid() && Reads(r, GetLittle(old(Rest()), n))
    {
      var value, shift: nat := 0, 1;
      ghost var from := Rest();
      for k := 0 to n
        invariant Valid() && k <= |from| && Rest() == from[k..]
        invariant value == LittleValue(from[..k]) && shift == Pow256(k)
      {
        var byte := U8();
        if byte.Err? {
          return Err(byte.error);
        }
        LittleGrows(from[..k], byte.value);
        assert from[..k] + [byte.value] == from[..k + 1];
        value := value + byte.value * shift;
        shift := 256 * shift;
      }
      r := Ok(value);
    }

    /** Takes `count` bytes as they are. */
    method Take(count: nat) returns (r: Result<Bytes, CodecError>)
      requires Valid()
      modifies this
      ensures Valid()
      ensures r.Ok? <==> count <= |old(Rest())|
      ensures r.Ok? ==> r.value == old(Rest())[..count] && Rest() == old(Rest())[count..]
      ensures r.Err? ==> r.error == BadInput
    {
      if count > |data| - offset {
        return Err(BadInput);
      }
      r := Ok(data[offset..offset + count]);
      offset := offset + count;
    }

    method Byte() returns (r: Result<Byte, CodecError>)
      requires Valid()
      modifies this
      ensures Valid() && Reads(r, GetU8(old(Rest())))
    {
      r := U8();
    }

    method U16() returns (r: Result<U16, CodecError>)
      requires Valid()
      modifies this
      ensures Valid() && Reads(r, GetU16(old(Rest())))
    {
      Widths();
      var v :- Little(2);
      return Ok(v);
    }

    method U32() returns (r: Result<U32, CodecError>)
      requires Valid()
      modifies this
      ensures Valid() && Reads(r, GetU32(old(Rest())))
    {
      Widths();
      var v :- Little(4);
      return Ok(v);
    }

    method U64() returns (r: Result<U64, CodecError>)
      requires Valid()
      modifies this
      ensures Valid() && Reads(r, GetU64(old(Rest())))
    {
      Widths();
      var v :- Little(8);
      return Ok(v);
    }

    method Fixed16() returns (r: Result<Id, CodecError>)
      requires Valid()
      modifies this
      ensures Valid() && Reads(r, GetId(old(Rest())))
    {
      Widths();
      var bytes :- Take(16);
      return Ok(BigValue(bytes));
    }

    method Fixed32() returns (r: Result<Digest, CodecError>)
      requires Valid()
      modifies this
      ensures Valid() && Reads(r, GetDigest(old(Rest())))
    {
      Widths();
      var bytes :- Take(32);
      return Ok(BigValue(bytes));
    }

    /** A record must use up its input. */
    method RequireEnd() returns (ok: bool)
      requires Valid()
      ensures ok <==> Rest() == []
    {
      ok := offset == |data|;
    }

    method Text(maxLength: nat, maxString: nat) returns (r: Result<Bytes, CodecError>)
      requires Valid()
      modifies this
      ensures Valid() && Reads(r, GetText(old(Rest()), maxLength, maxString))
    {
      var declared := Little(4);
      if declared.Err? {
        return Err(declared.error);
      }
      if declared.value > MAX_BYTES || declared.value > maxLength || declared.value > maxString {
        return Err(OverLimit);
      }
      r := Take(declared.value);
    }
  }

  lemma {:induction false} LittleGrows(b: Bytes, x: Byte)
    ensures LittleValue(b + [x]) == LittleValue(b) + x * Pow256(|b|)
  {
    if b == [] {
      assert LittleValue([x]) == x + 256 * LittleValue([x][1..]);
    } else {
      assert (b + [x])[1..] == b[1..] + [x];
      LittleGrows(b[1..], x);
      assert 256 * (x * Pow256(|b| - 1)) == x * Pow256(|b|);
    }
  }
}
