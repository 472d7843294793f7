/**
 * The string and buffer hashes of `Hash`: MurmurHash2 on 32-bit words, a
 * MurmurHash64A variant computed in signed 64-bit arithmetic, and a
 * case-insensitive djb2 that walks the input from its last byte to its
 * first. Each loop of the source is a method proved equal to a fold over
 * the input; the lemmas state how the folds compose.
 *
 * Machine words are the integers they hold. Every wrapping `*` and `<<`
 * is written with its `% 2^32` or `% 2^64`, a right shift is a division
 * by a power of two, and `^` is `Xor`. The signed `int64_t` values of
 * `murmur64` are their two's-complement bit patterns, so `>>` on them is
 * the arithmetic shift `Sar`.
 */
module Hash {
  import opened Memory
  import opened Bits

  // ---------------------------------------------------------------------
  // Bit operations on non-negative integers
  // ---------------------------------------------------------------------

  const TWO32: nat := 0x1_0000_0000
  const TWO64: nat := 0x1_0000_0000_0000_0000

  lemma XorBelow32(a: nat, b: nat)
    requires a < TWO32 && b < TWO32
    ensures Xor(a, b) < TWO32
  {
    // the powers of two, four at a time
    assert Pow2(4) == 0x10;
    assert Pow2(8) == 0x100;
    assert Pow2(12) == 0x1000;
    assert Pow2(16) == 0x1_0000;
    assert Pow2(20) == 0x10_0000;
    assert Pow2(24) == 0x100_0000;
    assert Pow2(28) == 0x1000_0000;
    assert Pow2(32) == TWO32;
    XorBelow(a, b, 32);
  }

  // ---------------------------------------------------------------------
  // murmur32
  // ---------------------------------------------------------------------

  const M32: nat := 0x5bd1_e995

  /** `x *= m` on `unsigned int`. */
  function Mul32(x: nat): nat
  {
    (x * M32) % TWO32
  }

  /** One 4-byte block, mixed by itself before it enters the hash. */
  function Scramble32(k: nat): nat
  {
    var a := Mul32(k);
    Mul32(Xor(a, a / 0x100_0000))
  }

  /** The block loop from byte `pos` on: every whole 4-byte block, in order. */
  function Blocks32(h: nat, data: seq<byte>, pos: nat): nat
    decreases |data| - pos
  {
    if pos + 4 > |data| then h
    else Blocks32(Xor(Mul32(h), Scramble32(Word(data, pos))), data, pos + 4)
  }

  /** Where the block loop started at `pos` stops: the first position with fewer than `width` bytes after it. */
  function BlockEnd(data: seq<byte>, pos: nat, width: nat): (e: nat)
    requires width > 0
    ensures pos <= e && (pos >= |data| ==> e == pos)
    ensures pos <= |data| ==> e <= |data| < e + width
    decreases |data| - pos
  {
    if pos + width > |data| then pos else BlockEnd(data, pos + width, width)
  }

  /** The `switch` on the 0 to 3 bytes left at `pos`, falling through from case 3 to case 1. */
  function Tail32(h: nat, data: seq<byte>, pos: nat): nat
    requires pos <= |data| < pos + 4
  {
    var rest := |data| - pos;
    var h3 := if rest == 3 then Xor(h, data[pos + 2] as nat * 0x1_0000) else h;
    var h2 := if rest >= 2 then Xor(h3, data[pos + 1] as nat * 0x100) else h3;
    if rest >= 1 then Mul32(Xor(h2, data[pos])) else h2
  }

  /** The final mixes. */
  function Avalanche32(h: nat): nat
  {
    var a := Xor(h, h / 0x2000);
    var b := Mul32(a);
    Xor(b, b / 0x8000)
  }

  /** `unsigned int h = seed ^ size`: the 64-bit size cut to its low 32 bits. */
  function Start32(size: nat, seed: u32): nat
  {
    Xor(seed, size % TWO32)
  }

  /** MurmurHash2 of `data`. */
  function MurmurHash2(data: seq<byte>, seed: u32): nat
  {
    Avalanche32(Tail32(Blocks32(Start32(|data|, seed), data, 0), data, BlockEnd(data, 0, 4)))
  }

  /** `Hash::murmur32`. */
  method Murmur32(key: seq<byte>, seed: u32) returns (r: nat)
    ensures r == MurmurHash2(key, seed)
  {
    var size := |key|;
    var h: nat := Xor(seed, size % TWO32);
    var data := 0;
    while size >= 4
      invariant data + size == |key|
      invariant BlockEnd(key, data, 4) == BlockEnd(key, 0, 4)
      invariant Blocks32(h, key, data) == Blocks32(Start32(|key|, seed), key, 0)
    {
      var k := Word(key, data);
      k := Mul32(k);
      k := Xor(k, k / 0x100_0000);
      k := Mul32(k);
      h := Mul32(h);
      h := Xor(h, k);
      data := data + 4;
      size := size - 4;
    }
    ghost var blocks := h;
    if size == 3 {
      h := Xor(h, key[data + 2] as nat * 0x1_0000);
    }
    if size >= 2 {
      h := Xor(h, key[data + 1] as nat * 0x100);
    }
    if size >= 1 {
      h := Xor(h, key[data]);
      h := Mul32(h);
    }
    assert h == Tail32(blocks, key, data);
    h := Xor(h, h / 0x2000);
    h := Mul32(h);
    h := Xor(h, h / 0x8000);
    r := h;
  }

  /** The hash fits the 32 bits of `unsigned int`, whatever the input. */
  lemma Murmur32Below(data: seq<byte>, seed: u32)
    ensures MurmurHash2(data, seed) < TWO32
  {
    var h := Tail32(Blocks32(Start32(|data|, seed), data, 0), data, BlockEnd(data, 0, 4));
    var b := Mul32(Xor(h, h / 0x2000));
    XorBelow32(b, b / 0x8000);
  }

  /** The empty input hashes to the final mixes of the seed alone. */
  lemma Murmur32Empty(seed: u32)
    ensures MurmurHash2([], seed) == Avalanche32(seed)
  {
    assert Xor(seed, 0) == seed;
  }

  /** Blocks of `b` seen at offset `|a| + pos` inside `a + b`. */
  lemma {:induction false} Blocks32Shift(h: nat, a: seq<byte>, b: seq<byte>, pos: nat)
    ensures Blocks32(h, a + b, |a| + pos) == Blocks32(h, b, pos)
    decreases |b| - pos
  {
    if pos + 4 <= |b| {
      assert Word(a + b, |a| + pos) == Word(b, pos);
      Blocks32Shift(Xor(Mul32(h), Scramble32(Word(b, pos))), a, b, pos + 4);
    }
  }

  /**
   * The block loop streams: running it over `a + b`, where `a` holds whole
   * blocks from `pos` on, is running it over `a` and then over `b`.
   */
  lemma {:induction false} Blocks32Append(h: nat, a: seq<byte>, b: seq<byte>, pos: nat)
    requires pos <= |a| && BlockEnd(a, pos, 4) == |a|
    ensures Blocks32(h, a + b, pos) == Blocks32(Blocks32(h, a, pos), b, 0)
    decreases |a| - pos
  {
    if pos == |a| {
      Blocks32Shift(h, a, b, 0);
    } else {
      var w := Word(a, pos);
      assert Word(a + b, pos) == w;
      Blocks32Append(Xor(Mul32(h), Scramble32(w)), a, b, pos + 4);
    }
  }

  // ---------------------------------------------------------------------
  // murmur64
  // ---------------------------------------------------------------------

  const M64: nat := 0xc6a4_a793_5bd1_e995
  const R64: nat := 47

  /** `x *= m` on the bit pattern of an `int64_t`, taken as wrapping. */
  function Mul64(x: nat): nat
  {
    (x * M64) % TWO64
  }

  /**
   * `x >> 47` on a signed `int64_t` held as its bit pattern `x`: the sign
   * bit is copied into the 47 vacated positions.
   */
  function Sar(x: nat): nat
  {
    if x >= 0x8000_0000_0000_0000 then x / 0x8000_0000_0000 + (TWO64 - 0x2_0000) else x / 0x8000_0000_0000
  }

  /** The 64-bit little-endian block at `pos`. */
  function Word64(data: seq<byte>, pos: nat): nat
    requires pos + 8 <= |data|
  {
    Word(data, pos) + TWO32 * Word(data, pos + 4)
  }

  function Scramble64(k: nat): nat
  {
    var a := Mul64(k);
    Mul64(Xor(a, Sar(a)))
  }

  function Blocks64(h: nat, data: seq<byte>, pos: nat): nat
    decreases |data| - pos
  {
    if pos + 8 > |data| then h
    else Blocks64(Mul64(Xor(h, Scramble64(Word64(data, pos)))), data, pos + 8)
  }

  /** The `switch` on the 0 to 7 bytes left at `pos`, falling through from case 7 to case 1. */
  function Tail64(h: nat, data: seq<byte>, pos: nat): nat
    requires pos <= |data| < pos + 8
  {
    var rest := |data| - pos;
    var h7 := if rest == 7 then Xor(h, data[pos + 6] as nat * 0x1_0000_0000_0000) else h;
    var h6 := if rest >= 6 then Xor(h7, data[pos + 5] as nat * 0x100_0000_0000) else h7;
    var h5 := if rest >= 5 then Xor(h6, data[pos + 4] as nat * 0x1_0000_0000) else h6;
    var h4 := if rest >= 4 then Xor(h5, data[pos + 3] as nat * 0x100_0000) else h5;
    var h3 := if rest >= 3 then Xor(h4, data[pos + 2] as nat * 0x1_0000) else h4;
    var h2 := if rest >= 2 then Xor(h3, data[pos + 1] as nat * 0x100) else h3;
    if rest >= 1 then Mul64(Xor(h2, data[pos])) else h2
  }

  function Avalanche64(h: nat): nat
  {
    var a := Xor(h, Sar(h));
    var b := Mul64(a);
    Xor(b, Sar(b))
  }

  /** `seed ^ (len * m)`, the product taken in 64-bit `size_t`. */
  function Start64(len: nat, seed: u64): nat
  {
    Xor(seed, ((len % TWO64) * M64) % TWO64)
  }

  /** The hash `Hash::murmur64` computes, as the bit pattern of its `int64_t` result. */
  function MurmurHash64(data: seq<byte>, seed: u64): nat
  {
    Avalanche64(Tail64(Blocks64(Start64(|data|, seed), data, 0), data, BlockEnd(data, 0, 8)))
  }

  /** `Hash::murmur64`; `seed` and the result are the bit patterns of the `int64_t` values. */
  method Murmur64(key: seq<byte>, seed: u64) returns (r: nat)
    ensures r == MurmurHash64(key, seed)
  {
    var len := |key|;
    var h: nat := Xor(seed, ((len % TWO64) * M64) % TWO64);
    var data := 0;
    var end := len / 8;
    assert 8 * end <= len < 8 * end + 8;
    while data != end
      invariant data <= end
      invariant BlockEnd(key, 8 * data, 8) == BlockEnd(key, 0, 8)
      invariant Blocks64(h, key, 8 * data) == Blocks64(Start64(|key|, seed), key, 0)
    {
      var k := Word64(key, 8 * data);
      data := data + 1;
      k := Mul64(k);
      k := Xor(k, Sar(k));
      k := Mul64(k);
      h := Xor(h, k);
      h := Mul64(h);
    }
    var data2 := 8 * data;
    var rest := len % 8;
    assert rest == len - data2;
    ghost var blocks := h;
    if rest == 7 {
      h := Xor(h, key[data2 + 6] as nat * 0x1_0000_0000_0000);
    }
    if rest >= 6 {
      h := Xor(h, key[data2 + 5] as nat * 0x100_0000_0000);
    }
    if rest >= 5 {
      h := Xor(h, key[data2 + 4] as nat * 0x1_0000_0000);
    }
    if rest >= 4 {
      h := Xor(h, key[data2 + 3] as nat * 0x100_0000);
    }
    if rest >= 3 {
      h := Xor(h, key[data2 + 2] as nat * 0x1_0000);
    }
    if rest >= 2 {
      h := Xor(h, key[data2 + 1] as nat * 0x100);
    }
    if rest >= 1 {
      h := Xor(h, key[data2]);
      h := Mul64(h);
    }
    assert h == Tail64(blocks, key, data2);
    h := Xor(h, Sar(h));
    h := Mul64(h);
    h := Xor(h, Sar(h));
    r := h;
  }

  /**
   * Where this variant parts from reference MurmurHash64A, whose `>>` is
   * on `uint64_t`: a value with the top bit set shifts in ones instead of
   * zeros; below that the two shifts agree.
   */
  lemma SignedShift(x: nat)
    requires x < TWO64
    ensures x < 0x8000_0000_0000_0000 ==> Sar(x) == x / 0x8000_0000_0000
    ensures x >= 0x8000_0000_0000_0000 ==> Sar(x) != x / 0x8000_0000_0000 && Sar(x) >= TWO64 - 0x2_0000
  {
  }

  lemma Murmur64Empty(seed: u64)
    ensures MurmurHash64([], seed) == Avalanche64(seed)
  {
    assert Xor(seed, 0) == seed;
  }

  lemma {:induction false} Blocks64Shift(h: nat, a: seq<byte>, b: seq<byte>, pos: nat)
    ensures Blocks64(h, a + b, |a| + pos) == Blocks64(h, b, pos)
    decreases |b| - pos
  {
    if pos + 8 <= |b| {
      assert Word(a + b, |a| + pos) == Word(b, pos);
      assert Word(a + b, |a| + pos + 4) == Word(b, pos + 4);
      Blocks64Shift(Mul64(Xor(h, Scramble64(Word64(b, pos)))), a, b, pos + 8);
    }
  }

  /** The 64-bit block loop streams over whole 8-byte blocks. */
  lemma {:induction false} Blocks64Append(h: nat, a: seq<byte>, b: seq<byte>, pos: nat)
    requires pos <= |a| && BlockEnd(a, pos, 8) == |a|
    ensures Blocks64(h, a + b, pos) == Blocks64(Blocks64(h, a, pos), b, 0)
    decreases |a| - pos
  {
    if pos == |a| {
      Blocks64Shift(h, a, b, 0);
    } else {
      assert Word(a + b, pos) == Word(a, pos);
      assert Word(a + b, pos + 4) == Word(a, pos + 4);
      Blocks64Append(Mul64(Xor(h, Scramble64(Word64(a, pos)))), a, b, pos + 8);
    }
  }

  // ---------------------------------------------------------------------
  // bernstein_ci
  // ---------------------------------------------------------------------

  /** `tolower` in the "C" locale. */
  function ToLower(c: byte): byte
  {
    if 'A' as int <= c <= 'Z' as int then c + 32 else c
  }

  /** `((h << 5) + h) ^ tolower(c)` on `unsigned int`. */
  function Djb2Step(h: nat, c: byte): nat
  {
    Xor(((h * 32) % TWO32 + h) % TWO32, ToLower(c))
  }

  /** The hash of `data`: its last byte enters first, its first byte last. */
  function Bernstein(data: seq<byte>, seed: nat): nat
  {
    if |data| == 0 then seed else Djb2Step(Bernstein(data[1..], seed), data[0])
  }

  /** `Hash::bernstein_ci`. */
  method BernsteinCi(dataIn: seq<byte>, seed: u32) returns (r: nat)
    ensures r == Bernstein(dataIn, seed)
  {
    var h: nat := seed;
    var size: nat := |dataIn|;
    while size > 0
      invariant size <= |dataIn|
      invariant h == Bernstein(dataIn[size..], seed)
    {
      size := size - 1;
      assert dataIn[size..][1..] == dataIn[size + 1..];
      h := Xor(((h * 32) % TWO32 + h) % TWO32, ToLower(dataIn[size]));
    }
    assert dataIn[0..] == dataIn;
    r := h;
  }

  lemma BernsteinEmpty(seed: nat)
    ensures Bernstein([], seed) == seed
  {
  }

  /** Inputs that differ only in the case of ASCII letters hash alike. */
  lemma {:induction false} BernsteinCaseInsensitive(a: seq<byte>, b: seq<byte>, seed: nat)
    requires |a| == |b|
    requires forall i :: 0 <= i < |a| ==> ToLower(a[i]) == ToLower(b[i])
    ensures Bernstein(a, seed) == Bernstein(b, seed)
  {
    if |a| > 0 {
      BernsteinCaseInsensitive(a[1..], b[1..], seed);
    }
  }

  /** Walking backwards, the hash of `a + b` continues from the hash of `b`. */
  lemma {:induction false} BernsteinAppend(a: seq<byte>, b: seq<byte>, seed: nat)
    ensures Bernstein(a + b, seed) == Bernstein(a, Bernstein(b, seed))
  {
    if |a| > 0 {
      assert (a + b)[1..] == a[1..] + b;
      BernsteinAppend(a[1..], b, seed);
    } else {
      assert a + b == b;
    }
  }
}
