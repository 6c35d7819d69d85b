/** Block bitmaps: one bit per sector, most significant bit first. */
module Bitmap {
  import opened Bytes

  predicate MachineBit(b: bv8, k: nat)
    requires k < 8
  {
    (b << k) & 0x80 != 0
  }

  function MachineSet(b: bv8, k: nat): bv8
    requires k < 8
  {
    b | (0x80 >> k)
  }

  predicate BitOf(b: byte, k: nat)
    requires k < 8
  {
    MachineBit(b as bv8, k)
  }

  function WithBit(b: byte, k: nat): (r: byte)
    requires k < 8
  {
    MachineSet(b as bv8, k) as int
  }

  lemma MachineSetBit(b: bv8, k: nat, j: nat)
    requires k < 8 && j < 8
    ensures MachineBit(MachineSet(b, k), j) <==> j == k || MachineBit(b, j)
  {
    if k == 0 {
    } else if k == 1 {
    } else if k == 2 {
    } else if k == 3 {
    } else if k == 4 {
    } else if k == 5 {
    } else if k == 6 {
    } else {
    }
  }

  lemma ByteOfByte(b: bv8)
    ensures (b as int) as bv8 == b
  {
  }

  lemma SetBit(b: byte, k: nat, j: nat)
    requires k < 8 && j < 8
    ensures BitOf(WithBit(b, k), j) == (j == k || BitOf(b, j))
  {
    hide MachineBit, MachineSet;
    ByteOfByte(MachineSet(b as bv8, k));
    MachineSetBit(b as bv8, k, j);
  }

  lemma NoBits(k: nat)
    requires k < 8
    ensures !BitOf(0, k)
  {
  }

  /** Bit 0 is the one worth 128, bit 7 the one worth 1. */
  lemma SingleBits(k: nat, j: nat)
    requires k < 8 && j < 8
    ensures BitOf([128, 64, 32, 16, 8, 4, 2, 1][k], j) <==> j == k
    ensures WithBit(0, k) == [128, 64, 32, 16, 8, 4, 2, 1][k] && BitOf(255, j)
  {
    OneBit(k, j);
    hide MachineBit, MachineSet;
    var m: seq<bv8> := [128, 64, 32, 16, 8, 4, 2, 1];
    var n: seq<byte> := [128, 64, 32, 16, 8, 4, 2, 1];
    assert n[k] as bv8 == m[k] && m[k] as int == n[k];
  }

  lemma OneBit(k: nat, j: nat)
    requires k < 8 && j < 8
    ensures var m: seq<bv8> := [128, 64, 32, 16, 8, 4, 2, 1];
      (MachineBit(m[k], j) <==> j == k) && MachineSet(0, k) == m[k] && MachineBit(255, j)
  {
    if k == 0 {
    } else if k == 1 {
    } else if k == 2 {
    } else if k == 3 {
    } else if k == 4 {
    } else if k == 5 {
    } else if k == 6 {
    } else {
    }
  }

  /** Bit `i` of a bitmap. */
  predicate Test(bitmap: Buffer, i: nat)
    requires i / 8 < |bitmap|
  {
    BitOf(bitmap[i / 8], i % 8)
  }

  /** Marks the sectors from `begin` to `end`, exclusive. */
  method SetRange(bitmap: Buffer, begin: nat, end: nat) returns (r: Buffer)
    requires begin <= end <= 8 * |bitmap|
    ensures |r| == |bitmap|
    ensures forall j: nat | j < 8 * |bitmap| :: Test(r, j) == (begin <= j < end || Test(bitmap, j))
  {
    hide BitOf, WithBit;
    r := bitmap;
    for i := begin to end
      invariant |r| == |bitmap|
      invariant forall j: nat | j < 8 * |bitmap| :: Test(r, j) == (begin <= j < i || Test(bitmap, j))
    {
      ghost var before := r;
      r := r[i / 8 := WithBit(r[i / 8], i % 8)];
      forall j: nat | j < 8 * |bitmap| ensures Test(r, j) == (j == i || Test(before, j)) {
        SetBit(before[i / 8], i % 8, j % 8);
        assert j / 8 == i / 8 && j % 8 == i % 8 ==> j == i;
      }
    }
  }
}
