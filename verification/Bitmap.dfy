/** The free map: one bit per disk block, packed eight to a byte. */
module Bitmap {
  import opened Params
  import opened Blocks

  const BPB := BSIZE * 8

  /** 1 << k. */
  function Mask(k: nat): (r: nat)
    ensures r > 0
  {
    if k == 0 then 1 else 2 * Mask(k - 1)
  }

  /** x & (1 << k). */
  predicate BitOf(x: nat, k: nat) {
    if k == 0 then x % 2 == 1 else BitOf(x / 2, k - 1)
  }

  /** Setting a clear bit by adding its weight changes no other bit and does not overflow. */
  lemma {:induction false} OrBit(x: nat, k: nat, j: nat, n: nat)
    requires !BitOf(x, k) && k < n && x < Mask(n)
    ensures x + Mask(k) < Mask(n) && (BitOf(x + Mask(k), j) <==> j == k || BitOf(x, j))
  {
    if k == 0 {
      assert (x + 1) / 2 == x / 2;
    } else {
      assert (x + Mask(k)) / 2 == x / 2 + Mask(k - 1);
      OrBit(x / 2, k - 1, if j == 0 then 0 else j - 1, n - 1);
    }
  }

  lemma {:induction false} AndNotBit(x: nat, k: nat, j: nat)
    requires BitOf(x, k)
    ensures Mask(k) <= x && (BitOf(x - Mask(k), j) <==> j != k && BitOf(x, j))
  {
    if k == 0 {
      assert (x - 1) / 2 == x / 2;
    } else {
      AndNotBit(x / 2, k - 1, if j == 0 then 0 else j - 1);
      assert (x - Mask(k)) / 2 == x / 2 - Mask(k - 1);
    }
  }

  lemma ByteBits()
    ensures Mask(8) == 256
  {
    assert Mask(2) == 4 && Mask(4) == 16 && Mask(6) == 64;
  }

  predicate Bit(b: Block, i: nat)
    requires i < BPB
  {
    BitOf(b[i / 8], i % 8)
  }

  /** data[i/8] |= 1 << (i % 8), for a bit that is clear. */
  function SetBit(b: Block, i: nat): (r: Block)
    requires i < BPB && !Bit(b, i)
    ensures forall j | 0 <= j < BPB :: Bit(r, j) <==> j == i || Bit(b, j)
  {
    ByteBits();
    OrBit(b[i / 8], i % 8, 0, 8);
    var r: Block := b[i / 8 := b[i / 8] + Mask(i % 8)];
    assert forall j | 0 <= j < BPB :: Bit(r, j) <==> j == i || Bit(b, j) by {
      forall j | 0 <= j < BPB ensures Bit(r, j) <==> j == i || Bit(b, j) {
        OrBit(b[i / 8], i % 8, j % 8, 8);
      }
    }
    r
  }

  /** data[i/8] &= ~(1 << (i % 8)), for a bit that is set. */
  function ClearBit(b: Block, i: nat): (r: Block)
    requires i < BPB && Bit(b, i)
    ensures forall j | 0 <= j < BPB :: Bit(r, j) <==> j != i && Bit(b, j)
  {
    AndNotBit(b[i / 8], i % 8, 0);
    var r: Block := b[i / 8 := b[i / 8] - Mask(i % 8)];
    assert forall j | 0 <= j < BPB :: Bit(r, j) <==> j != i && Bit(b, j) by {
      forall j | 0 <= j < BPB ensures Bit(r, j) <==> j != i && Bit(b, j) {
        AndNotBit(b[i / 8], i % 8, j % 8);
      }
    }
    r
  }
}
