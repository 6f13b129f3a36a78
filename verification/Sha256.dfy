/** Streaming SHA-256, proved against the block-by-block definition of FIPS 180-4. */
module Sha256 {
  import opened Basics
  import opened Encoding

  const BLOCK: nat := 64

  // ---- the compression function (section 6.2.2) --------------------------

  /** The round constants, in rows of eight. What they are is `Sha256Constants.RoundConstantsAreCubeRoots`. */
  function RoundTable(): (t: seq<seq<bv32>>)
    ensures |t| == 8 && forall i :: 0 <= i < 8 ==> |t[i]| == 8
  {
    [[0x428a2f98, 0x71374491, 0xb5c0fbcf, 0xe9b5dba5, 0x3956c25b, 0x59f111f1, 0x923f82a4, 0xab1c5ed5],
     [0xd807aa98, 0x12835b01, 0x243185be, 0x550c7dc3, 0x72be5d74, 0x80deb1fe, 0x9bdc06a7, 0xc19bf174],
     [0xe49b69c1, 0xefbe4786, 0x0fc19dc6, 0x240ca1cc, 0x2de92c6f, 0x4a7484aa, 0x5cb0a9dc, 0x76f988da],
     [0x983e5152, 0xa831c66d, 0xb00327c8, 0xbf597fc7, 0xc6e00bf3, 0xd5a79147, 0x06ca6351, 0x14292967],
     [0x27b70a85, 0x2e1b2138, 0x4d2c6dfc, 0x53380d13, 0x650a7354, 0x766a0abb, 0x81c2c92e, 0x92722c85],
     [0xa2bfe8a1, 0xa81a664b, 0xc24b8b70, 0xc76c51a3, 0xd192e819, 0xd6990624, 0xf40e3585, 0x106aa070],
     [0x19a4c116, 0x1e376c08, 0x2748774c, 0x34b0bcb5, 0x391c0cb3, 0x4ed8aa4a, 0x5b9cca4f, 0x682e6ff3],
     [0x748f82ee, 0x78a5636f, 0x84c87814, 0x8cc70208, 0x90befffa, 0xa4506ceb, 0xbef9a3f7, 0xc67178f2]]
  }

  function RoundConstant(i: nat): bv32
    requires i < 64
  {
    RoundTable()[i / 8][i % 8]
  }

  datatype Words = Words(a: bv32, b: bv32, c: bv32, d: bv32, e: bv32, f: bv32, g: bv32, h: bv32)

  /** The initial hash value (section 5.3.3). */
  const INITIAL: Words := Words(0x6a09e667, 0xbb67ae85, 0x3c6ef372, 0xa54ff53a, 0x510e527f, 0x9b05688c, 0x1f83d9ab, 0x5be0cd19)

  // The functions of section 4.1.2, a rotation by n written as a shift by n and one by 32 - n.

  function Choose(x: bv32, y: bv32, z: bv32): bv32 {
    (x & y) ^ ((!x) & z)
  }

  function Majority(x: bv32, y: bv32, z: bv32): bv32 {
    (x & y) ^ (x & z) ^ (y & z)
  }

  function BigSigmaZero(x: bv32): bv32 {
    ((x >> 2) | (x << 30)) ^ ((x >> 13) | (x << 19)) ^ ((x >> 22) | (x << 10))
  }

  function BigSigmaOne(x: bv32): bv32 {
    ((x >> 6) | (x << 26)) ^ ((x >> 11) | (x << 21)) ^ ((x >> 25) | (x << 7))
  }

  function SmallSigmaZero(x: bv32): bv32 {
    ((x >> 7) | (x << 25)) ^ ((x >> 18) | (x << 14)) ^ (x >> 3)
  }

  function SmallSigmaOne(x: bv32): bv32 {
    ((x >> 17) | (x << 15)) ^ ((x >> 19) | (x << 13)) ^ (x >> 10)
  }

  function WordOf(b0: Byte, b1: Byte, b2: Byte, b3: Byte): bv32 {
    ((b0 as bv32) << 24) | ((b1 as bv32) << 16) | ((b2 as bv32) << 8) | (b3 as bv32)
  }

  function WordAt(block: Bytes, i: nat): bv32
    requires 4 * i + 4 <= |block|
  {
    WordOf(block[4 * i], block[4 * i + 1], block[4 * i + 2], block[4 * i + 3])
  }

  /** A word of the message schedule, from those 16, 15, 7 and 2 places before it. */
  function Expanded(w16: bv32, w15: bv32, w7: bv32, w2: bv32): bv32 {
    w16 + SmallSigmaZero(w15) + w7 + SmallSigmaOne(w2)
  }

  function NextWord(w: seq<bv32>): bv32
    requires |w| >= 16
  {
    Expanded(w[|w| - 16], w[|w| - 15], w[|w| - 7], w[|w| - 2])
  }

  /** The first n words of the message schedule of a block. */
  function Schedule(block: Bytes, n: nat): (w: seq<bv32>)
    requires |block| == BLOCK && n <= 64
    ensures |w| == n
  {
    if n == 0 then []
    else
      var w := Schedule(block, n - 1);
      w + [if n <= 16 then WordAt(block, n - 1) else NextWord(w)]
  }

  function Round(s: Words, k: bv32, w: bv32): Words {
    var temp1 := s.h + BigSigmaOne(s.e) + Choose(s.e, s.f, s.g) + k + w;
    var temp2 := BigSigmaZero(s.a) + Majority(s.a, s.b, s.c);
    Words(temp1 + temp2, s.a, s.b, s.c, s.d + temp1, s.e, s.f, s.g)
  }

  function Rounds(s: Words, w: seq<bv32>, n: nat): Words
    requires |w| == 64 && n <= 64
  {
    if n == 0 then s else Round(Rounds(s, w, n - 1), RoundConstant(n - 1), w[n - 1])
  }

  function Add(x: Words, y: Words): Words {
    Words(x.a + y.a, x.b + y.b, x.c + y.c, x.d + y.d, x.e + y.e, x.f + y.f, x.g + y.g, x.h + y.h)
  }

  function Compressed(s: Words, block: Bytes): Words
    requires |block| == BLOCK
  {
    Add(s, Rounds(s, Schedule(block, 64), 64))
  }

  // ---- the hash of a message ---------------------------------------------

  /** Compresses whole blocks, first to last. */
  function HashBlocks(s: Words, bytes: Bytes): Words
    requires |bytes| % BLOCK == 0
  {
    if bytes == [] then s
    else
      var last := |bytes| - BLOCK;
      assert last % BLOCK == 0;
      Compressed(HashBlocks(s, bytes[..last]), bytes[last..])
  }

  function Zeros(n: nat): (z: Bytes)
    ensures |z| == n
  {
    seq(n, _ => 0)
  }

  /** How many zero bytes stand between the marker and the length: the fewest that leave eight
      bytes to fill the last block. */
  function ZeroCount(length: nat): (k: nat)
    ensures k < BLOCK && (length + 1 + k + 8) % BLOCK == 0
  {
    (119 - length % BLOCK) % BLOCK
  }

  /** Padding (section 5.1.1): the marker, zeros, and the bit length in 64 bits. A length of 2^61
      bytes or more is outside the standard; its bit length is kept modulo 2^64. */
  function Padded(message: Bytes): (p: Bytes)
    ensures |p| % BLOCK == 0
  {
    message + [0x80] + Zeros(ZeroCount(|message|)) + BigBytes(8 * |message| % 0x1_0000_0000_0000_0000, 8)
  }

  function WordBytes(w: bv32): (b: Bytes)
    ensures |b| == 4
  {
    BigBytes(w as nat, 4)
  }

  function Output(s: Words): (b: Bytes)
    ensures |b| == 32
  {
    WordBytes(s.a) + WordBytes(s.b) + WordBytes(s.c) + WordBytes(s.d) + WordBytes(s.e) + WordBytes(s.f) + WordBytes(s.g)
    + WordBytes(s.h)
  }

  function Hash(message: Bytes): (b: Bytes)
    ensures |b| == 32
  {
    Output(HashBlocks(INITIAL, Padded(message)))
  }

  // ---- facts about blocks ------------------------------------------------

  lemma OneMoreBlock(s: Words, whole: Bytes, block: Bytes)
    requires |whole| % BLOCK == 0 && |block| == BLOCK
    ensures HashBlocks(s, whole + block) == Compressed(HashBlocks(s, whole), block)
  {
    var all := whole + block;
    assert all[..|all| - BLOCK] == whole && all[|all| - BLOCK..] == block;
  }

  /** Hashing is left to right: a prefix of whole blocks can be absorbed first. */
  lemma {:induction false} HashInTwo(s: Words, a: Bytes, b: Bytes)
    requires |a| % BLOCK == 0 && |b| % BLOCK == 0
    ensures HashBlocks(s, a + b) == HashBlocks(HashBlocks(s, a), b)
    decreases |b|
  {
    hide HashBlocks, Compressed;
    if b == [] {
      NoBlocks(HashBlocks(s, a));
      assert a + b == a;
    } else {
      var init, block := b[..|b| - BLOCK], b[|b| - BLOCK..];
      OneBlockOff(a, b);
      HashInTwo(s, a, init);
      OneMoreBlock(s, a + init, block);
      OneMoreBlock(HashBlocks(s, a), init, block);
    }
  }

  lemma NoBlocks(s: Words)
    ensures HashBlocks(s, []) == s
  {
  }

  lemma OneBlockOff(a: Bytes, b: Bytes)
    requires |a| % BLOCK == 0 && |b| % BLOCK == 0 && b != []
    ensures |b| >= BLOCK && |b[..|b| - BLOCK]| % BLOCK == 0 && |a + b[..|b| - BLOCK]| % BLOCK == 0
    ensures b[..|b| - BLOCK] + b[|b| - BLOCK..] == b
    ensures (a + b[..|b| - BLOCK]) + b[|b| - BLOCK..] == a + b
  {
  }

  /** Within the standard's length limit no two messages have the same padding. */
  lemma PaddingIsInjective(x: Bytes, y: Bytes)
    requires |x| < 0x2000_0000_0000_0000 && |y| < 0x2000_0000_0000_0000 && Padded(x) == Padded(y)
    ensures x == y
  {
    hide BigBytes, Pow256, BigValue, ZeroCount;
    var p, n := Padded(x), |Padded(x)|;
    assert p[n - 8..] == BigBytes(8 * |x|, 8);
    assert Padded(y)[n - 8..] == BigBytes(8 * |y|, 8);
    Widths();
    BigRoundTrip(8 * |x|, 8);
    BigRoundTrip(8 * |y|, 8);
    assert p[..|x|] == x && Padded(y)[..|y|] == y;
  }

  // ---- the streaming hasher ----------------------------------------------

  /** Whole blocks of a message, and what is left over. */
  function Whole(message: Bytes): (w: Bytes)
    ensures |w| % BLOCK == 0
  {
    message[..|message| / BLOCK * BLOCK]
  }

  function Left(message: Bytes): (l: Bytes)
    ensures |l| == |message| % BLOCK && message == Whole(message) + l
  {
    message[|message| / BLOCK * BLOCK..]
  }

  lemma WholeAndLeft(whole: Bytes, left: Bytes)
    requires |whole| % BLOCK == 0 && |left| < BLOCK
    ensures Whole(whole + left) == whole && Left(whole + left) == left
  {
    var m := whole + left;
    assert |m| / BLOCK * BLOCK == |whole|;
  }

  method ExpandSchedule(block: Bytes) returns (w: seq<bv32>)
    requires |block| == BLOCK
    ensures w == Schedule(block, 64)
  {
    hide WordAt, NextWord;
    var schedule := new bv32[64](_ => 0);
    for i := 0 to 16
      invariant schedule[..i] == Schedule(block, i)
    {
      schedule[i] := WordAt(block, i);
      assert schedule[..i + 1] == schedule[..i] + [schedule[i]];
    }
    for i := 16 to 64
      invariant schedule[..i] == Schedule(block, i)
    {
      schedule[i] := NextWord(schedule[..i]);
      assert schedule[..i + 1] == schedule[..i] + [schedule[i]];
    }
    w := schedule[..];
    assert w == schedule[..64];
  }

  class Hasher {
    var words: Words
    var buffer: array<Byte>
    var bufferSize: nat
    var totalBytes: U64
    ghost var message: Bytes

    /** The words and the staging buffer are determined by the message absorbed so far, however it
        was cut into updates. */
    ghost predicate Valid()
      reads this, buffer
    {
      && buffer.Length == BLOCK && bufferSize == |message| % BLOCK
      && words == HashBlocks(INITIAL, Whole(message))
      && buffer[..bufferSize] == Left(message)
      && totalBytes == |message| % 0x1_0000_0000_0000_0000
    }

    constructor ()
      ensures Valid() && message == [] && fresh(buffer)
    {
      words, bufferSize, totalBytes, message := INITIAL, 0, 0, [];
      buffer := new Byte[BLOCK](_ => 0);
    }

    method Compress(block: Bytes)
      requires |block| == BLOCK
      modifies this`words
      ensures words == Compressed(old(words), block)
    {
      hide Round, RoundConstant, Schedule;
      var w := ExpandSchedule(block);
      var s := words;
      for i := 0 to 64
        invariant s == Rounds(words, w, i)
      {
        s := Round(s, RoundConstant(i), w[i]);
      }
      words := Add(words, s);
    }

    /** Midway: whole blocks `done` are compressed, and the buffer holds what followed. */
    ghost predicate Holds(done: Bytes, seen: Bytes)
      reads this, buffer
    {
      && buffer.Length == BLOCK && bufferSize <= BLOCK && |done| % BLOCK == 0
      && words == HashBlocks(INITIAL, done)
      && done + buffer[..bufferSize] == seen
    }

    /** Tops up a partly filled buffer from the data, and compresses it when it is full. */
    method TopUp(data: Bytes, ghost done: Bytes, ghost before: Bytes) returns (offset: nat, ghost done': Bytes)
      requires Holds(done, before) && 0 < bufferSize < BLOCK
      modifies this`words, this`bufferSize, buffer
      ensures offset <= |data| && Holds(done', before + data[..offset])
      ensures bufferSize == 0 || (bufferSize < BLOCK && offset == |data|)
    {
      hide HashBlocks, Compressed;
      offset, done' := 0, done;
      while offset < |data| && bufferSize < BLOCK
        invariant offset <= |data| && bufferSize <= BLOCK
        invariant Holds(done, before + data[..offset])
      {
        ghost var held := buffer[..bufferSize];
        buffer[bufferSize] := data[offset];
        assert buffer[..bufferSize + 1] == held + [data[offset]];
        assert before + data[..offset + 1] == (before + data[..offset]) + [data[offset]];
        bufferSize, offset := bufferSize + 1, offset + 1;
      }
      if bufferSize == BLOCK {
        done' := Flush(done, before + data[..offset]);
      }
    }

    /** Compresses a full buffer and empties it. */
    method Flush(ghost done: Bytes, ghost seen: Bytes) returns (ghost done': Bytes)
      requires Holds(done, seen) && bufferSize == BLOCK
      modifies this`words, this`bufferSize
      ensures Holds(done', seen) && bufferSize == 0
    {
      hide HashBlocks, Compressed;
      ghost var block := buffer[..];
      assert buffer[..bufferSize] == block;
      Compress(buffer[..]);
      OneMoreBlock(INITIAL, done, block);
      bufferSize := 0;
      done' := done + block;
      assert done' + buffer[..0] == done';
    }

    /** Compresses the whole blocks of the data, straight from the data. */
    method CompressBlocks(data: Bytes, start: nat, ghost done: Bytes, ghost before: Bytes) returns (offset: nat, ghost done': Bytes)
      requires start <= |data| && bufferSize == 0 && Holds(done, before + data[..start])
      modifies this`words
      ensures start <= offset <= |data| < offset + BLOCK
      ensures Holds(done', before + data[..offset])
    {
      hide HashBlocks, Compressed;
      offset, done' := start, done;
      while |data| - offset >= BLOCK
        invariant start <= offset <= |data|
        invariant Holds(done', before + data[..offset])
      {
        ghost var block := data[offset..offset + BLOCK];
        Compress(data[offset..offset + BLOCK]);
        OneMoreBlock(INITIAL, done', block);
        assert before + data[..offset + BLOCK] == (before + data[..offset]) + block;
        done' := done' + block;
        offset := offset + BLOCK;
        assert done' + buffer[..0] == done';
      }
    }

    /** Absorbs more of the message. */
    method Update(data: Bytes)
      requires Valid()
      modifies this, buffer
      ensures Valid() && buffer == old(buffer) && message == old(message) + data
    {
      hide HashBlocks, Compressed, Whole, Left;
      ghost var before := message;
      ghost var done := Whole(before);
      CountsOn(|message|, |data|);
      totalBytes := (totalBytes + |data|) % 0x1_0000_0000_0000_0000;
      message := message + data;
      assert totalBytes == |message| % 0x1_0000_0000_0000_0000;
      assert data[..0] == [] && before + [] == before;
      assert Holds(done, before + data[..0]);
      Absorb(data, done, before);
    }

    /** The message so far is the blocks compressed and the bytes staged. */
    lemma HoldsAll(done: Bytes)
      requires Holds(done, message) && bufferSize < BLOCK && totalBytes == |message| % 0x1_0000_0000_0000_0000
      ensures Valid()
    {
      WholeAndLeft(done, buffer[..bufferSize]);
    }

    method Absorb(data: Bytes, ghost whole: Bytes, ghost before: Bytes)
      requires Holds(whole, before) && bufferSize < BLOCK && message == before + data
      requires totalBytes == |message| % 0x1_0000_0000_0000_0000
      modifies this`words, this`bufferSize, buffer
      ensures Valid()
    {
      hide HashBlocks, Compressed, Whole, Left, Valid;
      var offset := 0;
      ghost var done := whole;
      assert data[..0] == [] && before + [] == before;
      if bufferSize != 0 {
        offset, done := TopUp(data, done, before);
        if bufferSize != 0 {
          assert data[..offset] == data;
          HoldsAll(done);
          return;
        }
      }
      offset, done := CompressBlocks(data, offset, done, before);
      KeepTail(data[offset..]);
      assert before + data == (before + data[..offset]) + data[offset..];
      assert done + buffer[..0] == done;
      HoldsAll(done);
    }

    /** Stages the fewer than 64 bytes that are left. */
    method KeepTail(tail: Bytes)
      requires buffer.Length == BLOCK && |tail| < BLOCK && bufferSize == 0
      modifies this`bufferSize, buffer
      ensures bufferSize == |tail| && buffer[..bufferSize] == tail
    {
      for index := 0 to |tail|
        invariant buffer[..index] == tail[..index]
      {
        buffer[index] := tail[index];
        assert buffer[..index + 1] == buffer[..index] + [tail[index]];
      }
      bufferSize := |tail|;
    }

    /** Pads and finishes. The words are those of the padded message, compressed block by block. */
    method Finish() returns (digest: Bytes)
      requires Valid()
      modifies this, buffer
      ensures digest == Hash(old(message))
    {
      hide HashBlocks, Whole, Left, WordBytes, BigBytes, Zeros, Output;
      ghost var m := message;
      BitLength(|m|);
      var bitLength := 8 * totalBytes % 0x1_0000_0000_0000_0000;
      Update([0x80]);
      AppendZeros(m);
      Update(BigBytes(bitLength, 8));
      WholeOfPadded(message);
      digest := Output(words);
    }

    /** Zero bytes until eight are missing from the block. */
    method AppendZeros(ghost m: Bytes)
      requires Valid() && message == m + [0x80]
      modifies this, buffer
      ensures Valid() && buffer == old(buffer) && message == m + [0x80] + Zeros(ZeroCount(|m|))
    {
      hide HashBlocks, Whole, Left, Valid, ZeroCount;
      ghost var zeros := 0;
      assert message == m + [0x80] + Zeros(0);
      ZerosLeft(|m|, 0);
      StagedIs();
      while bufferSize != 56
        invariant Valid() && buffer == old(buffer) && zeros <= ZeroCount(|m|) && bufferSize == |message| % BLOCK
        invariant message == m + [0x80] + Zeros(zeros)
        decreases ZeroCount(|m|) - zeros
      {
        ZerosLeft(|m|, zeros);
        Update([0]);
        zeros := zeros + 1;
        assert Zeros(zeros) == Zeros(zeros - 1) + [0];
        StagedIs();
      }
      ZerosLeft(|m|, zeros);
    }

    lemma StagedIs()
      requires Valid()
      ensures bufferSize == |message| % BLOCK
    {
    }
  }

  lemma BitLength(length: nat)
    ensures 8 * (length % 0x1_0000_0000_0000_0000) % 0x1_0000_0000_0000_0000 == 8 * length % 0x1_0000_0000_0000_0000
  {
  }

  lemma WholeOfPadded(padded: Bytes)
    requires |padded| % BLOCK == 0
    ensures Whole(padded) == padded
  {
  }

  lemma CountsOn(a: nat, d: nat)
    ensures (a % 0x1_0000_0000_0000_0000 + d) % 0x1_0000_0000_0000_0000 == (a + d) % 0x1_0000_0000_0000_0000
  {
  }

  /** The padding loop stops exactly when the fewest zeros have been written. */
  lemma ZerosLeft(length: nat, zeros: nat)
    requires zeros <= ZeroCount(length)
    ensures (length + 1 + zeros) % BLOCK == 56 <==> zeros == ZeroCount(length)
  {
    var r := length % BLOCK;
    assert length == length / BLOCK * BLOCK + r;
    assert (length + 1 + zeros) % BLOCK == (r + 1 + zeros) % BLOCK;
  }

  /** One-shot hashing. */
  method HashOf(data: Bytes) returns (digest: Bytes)
    ensures digest == Hash(data)
  {
    var hasher := new Hasher();
    hasher.Update(data);
    assert [] + data == data;
    digest := hasher.Finish();
  }
}
