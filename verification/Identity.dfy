/** Identifier text and the hexadecimal form under which identifiers are indexed. */
module Identity {
  import opened Basics

  const MAX_IDENTIFIER: nat := 128

  // ---- identifier text ---------------------------------------------------

  predicate IsAlnum(c: Byte) {
    0x30 <= c <= 0x39 || 0x41 <= c <= 0x5A || 0x61 <= c <= 0x7A
  }

  /** Full stop, underscore, colon, hyphen. */
  predicate IsSeparator(c: Byte) {
    c == 0x2E || c == 0x5F || c == 0x3A || c == 0x2D
  }

  predicate IsIdentifierText(text: Bytes, maxLength: nat) {
    && 0 < |text| <= maxLength
    && !IsSeparator(text[0]) && !IsSeparator(text[|text| - 1])
    && forall i :: 0 <= i < |text| ==> IsAlnum(text[i]) || IsSeparator(text[i])
  }

  method ChecksIdentifier(text: Bytes, maxLength: nat) returns (ok: bool)
    ensures ok <==> IsIdentifierText(text, maxLength)
  {
    if text == [] || |text| > maxLength {
      return false;
    }
    if IsSeparator(text[0]) || IsSeparator(text[|text| - 1]) {
      return false;
    }
    for i := 0 to |text|
      invariant forall k :: 0 <= k < i ==> IsAlnum(text[k]) || IsSeparator(text[k])
    {
      if !IsAlnum(text[i]) && !IsSeparator(text[i]) {
        return false;
      }
    }
    return true;
  }

  // ---- hexadecimal -------------------------------------------------------

  function HexDigit(v: nat): (c: Byte)
    requires v < 16
    ensures HexValue(c) == Some(v)
  {
    if v < 10 then 0x30 + v else 0x61 + (v - 10)
  }

  function HexValue(c: Byte): (v: Option<nat>)
    ensures v.Some? ==> v.value < 16
  {
    if 0x30 <= c <= 0x39 then Some(c - 0x30)
    else if 0x61 <= c <= 0x66 then Some(10 + (c - 0x61))
    else if 0x41 <= c <= 0x46 then Some(10 + (c - 0x41))
    else None
  }

  function Hex(b: Bytes): (text: Bytes)
    ensures |text| == 2 * |b|
  {
    if b == [] then [] else Hex(b[..|b| - 1]) + [HexDigit(b[|b| - 1] / 16), HexDigit(b[|b| - 1] % 16)]
  }

  predicate AllHex(text: Bytes) {
    forall i :: 0 <= i < |text| ==> HexValue(text[i]).Some?
  }

  /** The byte that two hexadecimal digits spell. */
  function PairValue(hi: Byte, lo: Byte): Byte
    requires HexValue(hi).Some? && HexValue(lo).Some?
  {
    HexValue(hi).value * 16 + HexValue(lo).value
  }

  /** The same digits in lower case. */
  function Lowered(text: Bytes): (r: Bytes)
    ensures |r| == |text|
  {
    seq(|text|, i requires 0 <= i < |text| => if 0x41 <= text[i] <= 0x46 then text[i] + 0x20 else text[i])
  }

  lemma {:induction false} HexAt(b: Bytes, i: nat)
    requires i < |b|
    ensures Hex(b)[2 * i] == HexDigit(b[i] / 16) && Hex(b)[2 * i + 1] == HexDigit(b[i] % 16)
  {
    if i < |b| - 1 {
      HexAt(b[..|b| - 1], i);
    }
  }

  lemma HexIs(b: Bytes, text: Bytes)
    requires |text| == 2 * |b|
    requires forall i :: 0 <= i < |b| ==> text[2 * i] == HexDigit(b[i] / 16) && text[2 * i + 1] == HexDigit(b[i] % 16)
    ensures text == Hex(b)
  {
    forall k | 0 <= k < |text|
      ensures text[k] == Hex(b)[k]
    {
      HexAt(b, k / 2);
      assert k == 2 * (k / 2) || k == 2 * (k / 2) + 1;
    }
  }

  method ToHex(data: Bytes) returns (text: Bytes)
    ensures text == Hex(data)
  {
    var digits := new Byte[2 * |data|];
    for i := 0 to |data|
      invariant forall k :: 0 <= k < i ==> digits[2 * k] == HexDigit(data[k] / 16) && digits[2 * k + 1] == HexDigit(data[k] % 16)
    {
      digits[2 * i] := HexDigit(data[i] / 16);
      digits[2 * i + 1] := HexDigit(data[i] % 16);
    }
    text := digits[..];
    HexIs(data, text);
  }

  /** Parses exactly 32 hexadecimal digits of either case. */
  method ParseHex16(text: Bytes) returns (r: Option<Bytes>)
    ensures r.Some? <==> |text| == 32 && AllHex(text)
    ensures r.Some? ==> |r.value| == 16 && Hex(r.value) == Lowered(text)
  {
    if |text| != 32 {
      return None;
    }
    var out := new Byte[16](_ => 0);
    for i := 0 to 16
      invariant forall k :: 0 <= k < 2 * i ==> HexValue(text[k]).Some?
      invariant forall k :: 0 <= k < i ==> out[k] == PairValue(text[2 * k], text[2 * k + 1])
    {
      var hi, lo := HexValue(text[2 * i]), HexValue(text[2 * i + 1]);
      if hi.None? || lo.None? {
        return None;
      }
      out[i] := hi.value * 16 + lo.value;
    }
    var bytes := out[..];
    forall i | 0 <= i < 16
      ensures Lowered(text)[2 * i] == HexDigit(bytes[i] / 16) && Lowered(text)[2 * i + 1] == HexDigit(bytes[i] % 16)
    {
      PairDigits(text[2 * i], text[2 * i + 1]);
    }
    HexIs(bytes, Lowered(text));
    return Some(bytes);
  }

  function LowerOne(c: Byte): Byte {
    if 0x41 <= c <= 0x46 then c + 0x20 else c
  }

  lemma PairDigits(hi: Byte, lo: Byte)
    requires HexValue(hi).Some? && HexValue(lo).Some?
    ensures HexDigit(PairValue(hi, lo) / 16) == LowerOne(hi) && HexDigit(PairValue(hi, lo) % 16) == LowerOne(lo)
  {
  }

  /** The hexadecimal form names its identifier: it is 32 digits, all lower case already, and no
      two identifiers share one. An index keyed by it is an index keyed by the identifier. */
  lemma HexNames(a: Bytes, b: Bytes)
    requires |a| == |b| == 16
    ensures AllHex(Hex(a)) && Lowered(Hex(a)) == Hex(a)
    ensures Hex(a) == Hex(b) <==> a == b
  {
    forall k | 0 <= k < 32
      ensures HexValue(Hex(a)[k]).Some? && Lowered(Hex(a))[k] == Hex(a)[k]
    {
      HexAt(a, k / 2);
      assert k == 2 * (k / 2) || k == 2 * (k / 2) + 1;
    }
    if Hex(a) == Hex(b) {
      forall i | 0 <= i < 16
        ensures a[i] == b[i]
      {
        HexAt(a, i);
        HexAt(b, i);
        assert a[i] == a[i] / 16 * 16 + a[i] % 16;
        assert b[i] == b[i] / 16 * 16 + b[i] % 16;
      }
    }
  }
}
