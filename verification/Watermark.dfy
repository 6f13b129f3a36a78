/** The rollback watermark: a text file naming the highest epoch ever saved. */
module Watermark {
  import opened Basics

  const NEWLINE: Byte := 0x0A

  /** FabricEpochWatermark */
  const HEADER: Bytes :=
    [0x46, 0x61, 0x62, 0x72, 0x69, 0x63, 0x45, 0x70, 0x6F, 0x63, 0x68, 0x57, 0x61, 0x74, 0x65, 0x72, 0x6D, 0x61, 0x72, 0x6B]

  datatype WatermarkError = Corrupt | Overflow

  predicate IsDigit(c: Byte) {
    0x30 <= c <= 0x39
  }

  predicate IsBlank(c: Byte) {
    c == 0x20 || c == 0x0D || c == NEWLINE
  }

  // ---- decimal numbers ---------------------------------------------------

  function Decimal(n: nat): (text: Bytes)
    ensures text != []
  {
    if n < 10 then [0x30 + n] else Decimal(n / 10) + [0x30 + n % 10]
  }

  predicate AllDigits(text: Bytes) {
    forall i :: 0 <= i < |text| ==> IsDigit(text[i])
  }

  function ValueOf(text: Bytes): nat
    requires AllDigits(text)
  {
    if text == [] then 0 else 10 * ValueOf(text[..|text| - 1]) + (text[|text| - 1] - 0x30)
  }

  lemma {:induction false} DecimalValue(n: nat)
    ensures AllDigits(Decimal(n)) && ValueOf(Decimal(n)) == n
  {
    var text := Decimal(n);
    if n < 10 {
      assert text[..0] == [];
    } else {
      DecimalValue(n / 10);
      assert text[..|text| - 1] == Decimal(n / 10);
    }
  }

  lemma {:induction false} PrefixIsSmaller(text: Bytes, n: nat)
    requires AllDigits(text) && n <= |text|
    ensures ValueOf(text[..n]) <= ValueOf(text)
    decreases |text|
  {
    if n < |text| {
      var init := text[..|text| - 1];
      PrefixIsSmaller(init, n);
      assert init[..n] == text[..n];
    } else {
      assert text[..n] == text;
    }
  }

  /** Accumulates digits, refusing one that would carry the value past 64 bits. The guard is
      exact: a digit string overflows if and only if its value is above 2^64 - 1, and what is
      accepted is its value. */
  method ParseDigits(text: Bytes) returns (r: Result<U64, WatermarkError>)
    ensures r.Ok? <==> AllDigits(text) && ValueOf(text) <= U64_MAX
    ensures r.Ok? ==> r.value == ValueOf(text)
    ensures AllDigits(text) && ValueOf(text) > U64_MAX ==> r == Err(Overflow)
    ensures r == Err(Corrupt) ==> !AllDigits(text)
  {
    var epoch: U64 := 0;
    for i := 0 to |text|
      invariant AllDigits(text[..i]) && epoch == ValueOf(text[..i])
    {
      var c := text[i];
      if !IsDigit(c) {
        return Err(Corrupt);
      }
      assert text[..i + 1][..i] == text[..i];
      var digit := c - 0x30;
      if epoch > (U64_MAX - digit) / 10 {
        if AllDigits(text) {
          PrefixIsSmaller(text, i + 1);
        }
        return Err(Overflow);
      }
      epoch := epoch * 10 + digit;
    }
    assert text[..|text|] == text;
    return Ok(epoch);
  }

  // ---- trimming ----------------------------------------------------------

  function TrimFront(text: Bytes): Bytes {
    if text != [] && IsBlank(text[0]) then TrimFront(text[1..]) else text
  }

  function TrimBack(text: Bytes): Bytes {
    if text != [] && IsBlank(text[|text| - 1]) then TrimBack(text[..|text| - 1]) else text
  }

  function Trimmed(text: Bytes): Bytes {
    TrimBack(TrimFront(text))
  }

  method Trim(text: Bytes) returns (r: Bytes)
    ensures r == Trimmed(text)
  {
    var begin, end := 0, |text|;
    assert text[0..] == text;
    while begin < end && IsBlank(text[begin])
      invariant 0 <= begin <= end == |text|
      invariant TrimFront(text[begin..]) == TrimFront(text)
    {
      assert text[begin..][1..] == text[begin + 1..];
      begin := begin + 1;
    }
    ghost var front := text[begin..];
    assert front == TrimFront(text);
    assert text[begin..end] == front;
    while end > begin && IsBlank(text[end - 1])
      invariant begin <= end <= |text|
      invariant TrimBack(text[begin..end]) == TrimBack(front)
    {
      assert text[begin..end][..end - begin - 1] == text[begin..end - 1];
      end := end - 1;
    }
    r := text[begin..end];
  }

  /** Text whose ends are not blank survives trimming, whatever blanks surround it on the right. */
  lemma TrimKeeps(text: Bytes)
    requires text != [] && !IsBlank(text[0]) && !IsBlank(text[|text| - 1])
    ensures Trimmed(text) == text && Trimmed(text + [NEWLINE]) == text
  {
    var longer := text + [NEWLINE];
    assert longer[..|text|] == text && TrimFront(longer) == longer;
  }

  // ---- the file ----------------------------------------------------------

  function FirstNewline(text: Bytes): (i: nat)
    ensures i <= |text| && forall k :: 0 <= k < i ==> text[k] != NEWLINE
    ensures i < |text| ==> text[i] == NEWLINE
  {
    if text == [] || text[0] == NEWLINE then 0
    else
      var rest := FirstNewline(text[1..]);
      assert forall k :: 1 <= k < |text| ==> text[k] == text[1..][k - 1];
      rest + 1
  }

  function Written(epoch: U64): Bytes {
    HEADER + [NEWLINE] + Decimal(epoch) + [NEWLINE]
  }

  /** What reading a watermark file yields; a missing file reads as epoch zero. */
  method ReadWatermark(file: Option<Bytes>) returns (r: Result<U64, WatermarkError>)
    ensures file.None? ==> r == Ok(0)
    ensures file.Some? ==>
              var i := FirstNewline(file.value);
              if i == |file.value| || Trimmed(file.value[..i]) != HEADER || Trimmed(file.value[i + 1..]) == [] then r == Err(Corrupt)
              else
                var digits := Trimmed(file.value[i + 1..]);
                && (r.Ok? <==> AllDigits(digits) && ValueOf(digits) <= U64_MAX)
                && (r.Ok? ==> r.value == ValueOf(digits))
                && (AllDigits(digits) && ValueOf(digits) > U64_MAX ==> r == Err(Overflow))
  {
    if file.None? {
      return Ok(0);
    }
    var text := file.value;
    var i := FirstNewline(text);
    if i == |text| {
      return Err(Corrupt);
    }
    var header := Trim(text[..i]);
    if header != HEADER {
      return Err(Corrupt);
    }
    var value := Trim(text[i + 1..]);
    if value == [] {
      return Err(Corrupt);
    }
    r := ParseDigits(value);
  }

  /** What the reader makes of the written form: the header, then exactly the digits of the epoch. */
  lemma WrittenParts(epoch: U64)
    ensures var text := Written(epoch);
            var i := FirstNewline(text);
            && i < |text| && Trimmed(text[..i]) == HEADER && Trimmed(text[i + 1..]) == Decimal(epoch)
            && AllDigits(Decimal(epoch)) && ValueOf(Decimal(epoch)) == epoch
  {
    hide FirstNewline, Trimmed, ValueOf;
    var text := Written(epoch);
    var i := FirstNewline(text);
    assert forall k :: 0 <= k < |HEADER| ==> HEADER[k] != NEWLINE;
    assert i == |HEADER| by {
      assert text[|HEADER|] == NEWLINE;
      assert forall k :: 0 <= k < |HEADER| ==> text[k] == HEADER[k];
    }
    assert text[..i] == HEADER && text[i + 1..] == Decimal(epoch) + [NEWLINE];
    DecimalValue(epoch);
    TrimKeeps(HEADER);
    TrimKeeps(Decimal(epoch));
  }

  /** Reading back what was written gives the epoch, for every 64-bit epoch. */
  method WriteThenRead(epoch: U64) returns (r: Result<U64, WatermarkError>)
    ensures r == Ok(epoch)
  {
    WrittenParts(epoch);
    r := ReadWatermark(Some(Written(epoch)));
  }
}
