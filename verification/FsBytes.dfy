/** Blocks as bytes: the block-number tables stored in indirect blocks and the bits of
    the free map.  Reads outside a block or the map yield 0 and writes there do nothing, so
    that these functions are total. */
module FsBytes {
  const BSIZE: nat := 1024
  const NDIRECT: nat := 12
  const NINDIRECT: nat := 256
  const MAXFILE: nat := 268
  const BPB: nat := 8192
  const U32: nat := 0x1_0000_0000

  /** A block of BSIZE bytes. */
  type Bytes = seq<nat>

  function ZeroBlock(): (r: Bytes)
    ensures |r| == BSIZE
  {
    seq(BSIZE, _ => 0)
  }

  /** Entry j of the block read as an array of little-endian 32-bit words. */
  function Word(b: Bytes, j: nat): nat
  {
    if 4 * j + 3 < |b| then
      b[4 * j] + 256 * b[4 * j + 1] + 65536 * b[4 * j + 2] + 16777216 * b[4 * j + 3]
    else 0
  }

  function SetWord(b: Bytes, j: nat, v: nat): (r: Bytes)
    ensures |r| == |b|
  {
    if 4 * j + 3 < |b| then
      b[4 * j := v % 256][4 * j + 1 := v / 256 % 256][4 * j + 2 := v / 65536 % 256][4 * j + 3 := v / 16777216]
    else b
  }

  /** Storing a word and reading it back; other entries are not disturbed. */
  lemma SetWordGet(b: Bytes, j: nat, v: nat, k: nat)
    requires |b| == BSIZE && j < NINDIRECT && k < NINDIRECT
    ensures Word(SetWord(b, j, v), k) == if k == j then v else Word(b, k)
  {
    if k == j {
      assert v == v % 256 + 256 * (v / 256 % 256) + 65536 * (v / 65536 % 256) + 16777216 * (v / 16777216) by {
        assert v / 65536 == (v / 256) / 256 && v / 16777216 == (v / 65536) / 256;
      }
    }
  }

  /** A stored word has its lowest byte first, and no other byte changes. */
  lemma WordPlace(b: Bytes, j: nat, v: nat, k: nat)
    requires |b| == BSIZE && j < NINDIRECT && k < BSIZE && v < U32
    ensures var r := SetWord(b, j, v);
            && r[4 * j] == v % 256 && r[4 * j + 1] == v / 256 % 256
            && r[4 * j + 2] == v / 65536 % 256 && r[4 * j + 3] == v / 16777216 % 256
            && (k / 4 != j ==> r[k] == b[k])
  {
    assert v / 16777216 < 256;
  }

  lemma ZeroWord(k: nat)
    ensures Word(ZeroBlock(), k) == 0
  {
  }

  /** A byte of the free map as its eight bits; the mask 1 << (b % 8) selects bit b % 8. */
  type Bits = seq<bool>

  /** Whether block b is marked in use. */
  predicate Bit(bitmap: seq<Bits>, b: nat)
  {
    b / 8 < |bitmap| && b % 8 < |bitmap[b / 8]| && bitmap[b / 8][b % 8]
  }

  function PutBit(bitmap: seq<Bits>, b: nat, v: bool): (r: seq<Bits>)
    ensures |r| == |bitmap|
  {
    if b / 8 < |bitmap| && b % 8 < |bitmap[b / 8]| then
      bitmap[b / 8 := bitmap[b / 8][b % 8 := v]]
    else bitmap
  }

  /** Setting or clearing a bit changes that bit and no other. */
  lemma PutBitGet(bitmap: seq<Bits>, b: nat, v: bool, c: nat)
    requires b / 8 < |bitmap| && |bitmap[b / 8]| == 8
    ensures Bit(PutBit(bitmap, b, v), c) == if c == b then v else Bit(bitmap, c)
  {
    if b / 8 == c / 8 && b % 8 == c % 8 {
      assert b == 8 * (b / 8) + b % 8 == c;
    }
  }
}
