/**
 Disk blocks as the kernel sees them: BSIZE bytes that some callers read as
 bytes (file data), some as an array of 32-bit little-endian words (indirect
 blocks, the log header) and some as an array of bits (the free map).
 */
module Blocks {
  import opened Common

  const BSIZE: nat := 1024
  /** Words in a block; also NINDIRECT of kernel/fs.h. */
  const WORDS: nat := 256
  /** Bits in a block; BPB of kernel/fs.h. */
  const BPB: nat := 8192
  const WORD_LIMIT: nat := 0x1_0000_0000

  type Bytes = b: seq<byte> | |b| == BSIZE witness seq(BSIZE, i => 0)
  datatype Block = Block(bytes: Bytes)
  type word = w: int | 0 <= w < WORD_LIMIT

  /** A block of zeros, as bzero leaves it. */
  function ZeroBytes(): (z: Bytes)
    ensures forall i :: 0 <= i < BSIZE ==> z[i] == 0
  {
    seq(BSIZE, i => 0)
  }

  const ZERO_BLOCK: Block := Block(ZeroBytes())

  // ----- words

  function Word(b: Block, i: nat): (w: word)
    requires i < WORDS
  {
    FromBytes(b.bytes[4 * i], b.bytes[4 * i + 1], b.bytes[4 * i + 2], b.bytes[4 * i + 3])
  }

  function FromBytes(b0: int, b1: int, b2: int, b3: int): int {
    b0 + 0x100 * b1 + 0x1_0000 * b2 + 0x100_0000 * b3
  }

  /** Store w in word i: afterwards word i reads back as w and every other word as before. */
  function SetWord(b: Block, i: nat, w: word): (r: Block)
    requires i < WORDS
    ensures Word(r, i) == w
    ensures forall j: nat :: j < WORDS && j != i ==> Word(r, j) == Word(b, j)
  {
    BytesOfWord(w);
    Block(b.bytes
          [4 * i := w % 0x100]
          [4 * i + 1 := w / 0x100 % 0x100]
          [4 * i + 2 := w / 0x100 / 0x100 % 0x100]
          [4 * i + 3 := w / 0x100 / 0x100 / 0x100])
  }

  lemma BytesOfWord(w: word)
    ensures FromBytes(w % 0x100, w / 0x100 % 0x100, w / 0x100 / 0x100 % 0x100, w / 0x100 / 0x100 / 0x100) == w
    ensures w / 0x100 / 0x100 / 0x100 < 0x100
  {
    var q := w / 0x100;
    var r := q / 0x100;
    assert w == 0x100 * q + w % 0x100;
    assert q == 0x100 * r + q % 0x100;
    assert r == 0x100 * (r / 0x100) + r % 0x100;
  }

  lemma ZeroBlockWords()
    ensures forall i: nat :: i < WORDS ==> Word(ZERO_BLOCK, i) == 0
  {
  }

  // ----- bits

  /** x & (1 << k) */
  predicate ByteBit(x: nat, k: nat) {
    if k == 0 then x % 2 == 1 else ByteBit(x / 2, k - 1)
  }

  /** x | (1 << k): sets bit k and no other, and stays below every power of two above it. */
  function ByteWith(x: nat, k: nat, limit: nat): (r: nat)
    requires x < limit && PowerOfTwoAbove(limit, k)
    ensures r < limit
    ensures forall j: nat :: ByteBit(r, j) == (j == k || ByteBit(x, j))
  {
    if k == 0 then x / 2 * 2 + 1 else x % 2 + 2 * ByteWith(x / 2, k - 1, limit / 2)
  }

  /** x & ~(1 << k): clears bit k and no other. */
  function ByteWithout(x: nat, k: nat): (r: nat)
    ensures r <= x
    ensures forall j: nat :: ByteBit(r, j) == (j != k && ByteBit(x, j))
  {
    if k == 0 then x / 2 * 2 else x % 2 + 2 * ByteWithout(x / 2, k - 1)
  }

  /** limit is a multiple of 2^(k+1) */
  predicate PowerOfTwoAbove(limit: nat, k: nat) {
    limit % 2 == 0 && (k == 0 || PowerOfTwoAbove(limit / 2, k - 1))
  }

  /** data[i/8] & (1 << (i % 8)) */
  predicate Bit(b: Block, i: nat)
    requires i < BPB
  {
    ByteBit(b.bytes[i / 8], i % 8)
  }

  /** The block with bit i set. */
  function SetBit(b: Block, i: nat): (r: Block)
    requires i < BPB
    ensures Bit(r, i)
    ensures forall j: nat :: j < BPB && j != i ==> Bit(r, j) == Bit(b, j)
  {
    assert PowerOfTwoAbove(256, i % 8) by { ByteHasEightBits(i % 8); }
    Block(b.bytes[i / 8 := ByteWith(b.bytes[i / 8], i % 8, 256)])
  }

  /** The block with bit i cleared. */
  function ClearBit(b: Block, i: nat): (r: Block)
    requires i < BPB
    ensures !Bit(r, i)
    ensures forall j: nat :: j < BPB && j != i ==> Bit(r, j) == Bit(b, j)
  {
    Block(b.bytes[i / 8 := ByteWithout(b.bytes[i / 8], i % 8)])
  }

  lemma ByteHasEightBits(k: nat)
    requires k < 8
    ensures PowerOfTwoAbove(256, k)
  {
    assert PowerOfTwoAbove(2, 0) && PowerOfTwoAbove(4, 1) && PowerOfTwoAbove(8, 2) && PowerOfTwoAbove(16, 3);
    if k == 0 {} else if k == 1 {} else if k == 2 {} else if k == 3 {}
    else if k == 4 {} else if k == 5 {} else if k == 6 {} else {}
  }

  lemma {:induction false} ZeroHasNoBits(k: nat)
    ensures !ByteBit(0, k)
  {
    if k > 0 { ZeroHasNoBits(k - 1); }
  }

  lemma ZeroBlockBits(i: nat)
    requires i < BPB
    ensures !Bit(ZERO_BLOCK, i)
  {
    ZeroHasNoBits(i % 8);
  }
}
