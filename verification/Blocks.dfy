/** Disk blocks as bytes: the bitmap bits and the little-endian words kept in them
    (include/fs.h, kernel/fs.c). */
module Blocks {
  type byte = x: int | 0 <= x < 256

  const BSIZE: nat := 512
  const BPB: nat := 4096         // bitmap bits per block
  const NINDIRECT: nat := 128    // words per block
  const WORD: int := 0x1_0000_0000

  type Block = b: seq<byte> | |b| == BSIZE witness seq(BSIZE, _ => 0)

  function Zeros(): Block { seq(BSIZE, _ => 0) }

  // Bits.

  function Power(k: nat): nat { if k == 0 then 1 else 2 * Power(k - 1) }

  /** x & (1 << k) */
  predicate Bit(x: nat, k: nat) { if k == 0 then x % 2 == 1 else Bit(x / 2, k - 1) }

  /** x | (1 << k) */
  function WithBit(x: byte, k: nat): byte
    requires k < 8
  {
    AddBit(x, k, 8, k);
    assert Power(8) == 256;
    if Bit(x, k) then x else x + Power(k)
  }

  /** x & ~(1 << k) */
  function WithoutBit(x: byte, k: nat): byte
    requires k < 8
  {
    if Bit(x, k) then DropBit(x, k); x - Power(k) else x
  }

  lemma {:induction false} AddBit(x: nat, k: nat, n: nat, j: nat)
    ensures !Bit(x, k) ==> Bit(x + Power(k), j) == (j == k || Bit(x, j))
    ensures !Bit(x, k) && k < n && x < Power(n) ==> x + Power(k) < Power(n)
  {
    if k == 0 {
      if j > 0 && !Bit(x, 0) { assert (x + 1) / 2 == x / 2; }
      assert n > 0 ==> Power(n) == 2 * Power(n - 1);
    } else {
      AddBit(x / 2, k - 1, if n == 0 then 0 else n - 1, if j == 0 then 0 else j - 1);
      assert (x + Power(k)) / 2 == x / 2 + Power(k - 1) && (x + Power(k)) % 2 == x % 2;
    }
  }

  lemma {:induction false} DropBit(x: nat, k: nat)
    requires Bit(x, k)
    ensures x >= Power(k) && !Bit(x - Power(k), k)
  {
    if k > 0 {
      DropBit(x / 2, k - 1);
      assert (x - Power(k)) / 2 == x / 2 - Power(k - 1);
    }
  }

  // The bitmap in a block: bit `bi` is bit bi % 8 of byte bi / 8.

  predicate TestBit(b: Block, bi: nat)
    requires bi < BPB
  {
    Bit(b[bi / 8], bi % 8)
  }

  function MarkBit(b: Block, bi: nat): Block
    requires bi < BPB
  {
    b[bi / 8 := WithBit(b[bi / 8], bi % 8)]
  }

  function ClearBit(b: Block, bi: nat): Block
    requires bi < BPB
  {
    b[bi / 8 := WithoutBit(b[bi / 8], bi % 8)]
  }

  /** Marking or clearing a bit of the bitmap changes that bit and no other. */
  lemma BitOps(b: Block, bi: nat, bj: nat)
    requires bi < BPB && bj < BPB
    ensures TestBit(MarkBit(b, bi), bj) == (bj == bi || TestBit(b, bj))
    ensures TestBit(ClearBit(b, bi), bj) == (bj != bi && TestBit(b, bj))
  {
    var (x, k, j) := (b[bi / 8], bi % 8, bj % 8);
    if bi / 8 == bj / 8 {
      AddBit(x, k, 8, j);
      if Bit(x, k) {
        DropBit(x, k);
        AddBit(x - Power(k), k, 8, j);
      }
    }
  }

  // Words: word `j` is the four bytes from 4 * j on, lowest first.

  function Word(b: Block, j: nat): nat
    requires j < NINDIRECT
  {
    var (b0: int, b1: int, b2: int, b3: int) := (b[4 * j], b[4 * j + 1], b[4 * j + 2], b[4 * j + 3]);
    b0 + 0x100 * b1 + 0x1_0000 * b2 + 0x100_0000 * b3
  }

  function PutWord(b: Block, j: nat, v: nat): Block
    requires j < NINDIRECT && v < WORD
  {
    b[4 * j := v % 0x100][4 * j + 1 := v / 0x100 % 0x100]
     [4 * j + 2 := v / 0x1_0000 % 0x100][4 * j + 3 := v / 0x100_0000]
  }

  lemma WordOps(b: Block, j: nat, v: nat, i: nat)
    requires j < NINDIRECT && i < NINDIRECT && v < WORD
    ensures Word(PutWord(b, j, v), i) == if i == j then v else Word(b, i)
  {
    assert v == (v % 0x100 + 0x100 * (v / 0x100 % 0x100)
                 + 0x1_0000 * (v / 0x1_0000 % 0x100) + 0x100_0000 * (v / 0x100_0000));
  }

  lemma WordZero(j: nat)
    requires j < NINDIRECT
    ensures Word(Zeros(), j) == 0
  {
  }
}
