/** Concrete VHDs for which the code does less than its purpose. */
module VhdExamples {
  import opened Options
  import opened Bytes
  import opened VhdFormat
  import opened VhdLayout
  import opened Bitmap
  import opened VhdStream
  import VhdParse
  import VhdStreamRoundTrip
  import VhdStreamLength
  import VhdOverlay
  import SparseLayout
  import SparseStream
  import SparseDisk

  const MIB: int := 0x10_0000

  function SmallFooter(size: nat): (f: Footer)
    requires size < U32_LIMIT
    ensures ValidFooter(f) && f.currentSize == size
  {
    Footer(2, 0, Zeros(12), size, size, Zeros(4), DYNAMIC, Zeros(16), Zeros(428))
  }

  /** A disk of 2 MiB without blocks, whose first parent locator has `space` sectors and `length` bytes. */
  function WithLocator(space: nat, length: nat): (v: Vhd)
    requires space < U32_LIMIT && length < U32_LIMIT
    ensures Wellformed(v) && Addressable(v) && v.header.locators[0] == Locator(0x57326B75, space, length, 0, 0)
    ensures v.blocks == map[] && v.header.maxTableEntries == 1
  {
    var h := SparseDisk.CreateHeader(1);
    Vhd(SmallFooter(2 * MIB), h.(locators := h.locators[0 := Locator(0x57326B75, space, length, 0, 0)]), map[],
        seq(PARENT_LOCATOR_ENTRIES, i => []))
  }

  /** A used parent locator without data: the stream of such a disk does not parse. */
  lemma EmptyLocator(tail: Buffer)
    requires |tail| == BatSize(1) - 4
    ensures var v := WithLocator(1, 0);
      !VhdStreamRoundTrip.Readable(v) && VhdParse.ParseStream(StreamOf(v, tail)) == None
  {
    var v := WithLocator(1, 0);
    assert !VhdStreamRoundTrip.Readable(v) by {
      assert v.header.locators[0].platformDataSpace > 0 && v.header.locators[0].platformDataLength == 0;
    }
    hide *;
    VhdStreamRoundTrip.StreamParses(v, tail);
  }

  /** A disk without blocks but with a parent locator: the pass-through with a length loses the locator. */
  method LocatorLost(tail: Buffer, chunks: seq<Buffer>) returns (r: Option<Buffer>)
    requires |tail| == BatSize(1) - 4 && VhdStreamLength.Joined(chunks) == StreamOf(WithLocator(1, 5), tail)
    ensures VhdStreamRoundTrip.Readable(WithLocator(1, 5)) && r.Some? && r.value != StreamOf(WithLocator(1, 5), tail)
  {
    LocatorHasNoEnd();
    var v := WithLocator(1, 5);
    hide *;
    r := VhdStreamLength.WithLength(v, tail, chunks);
  }

  lemma LocatorHasNoEnd()
    ensures var v := WithLocator(1, 5); VhdStreamRoundTrip.Readable(v) && !VhdStreamLength.HasEnd(v)
  {
    var v := WithLocator(1, 5);
    var ls := v.header.locators;
    assert v.blocks == map[];
    assert Spaces(ls, |ls|) >= Spaces(ls, 1) == 1 by {
      SpacesForward(ls, 1, |ls|);
      assert Spaces(ls, 1) == Spaces(ls, 0) + ls[0].platformDataSpace;
    }
  }

  lemma {:induction false} SpacesForward(ls: seq<Locator>, i: nat, n: nat)
    requires i <= n <= |ls|
    ensures Spaces(ls, i) <= Spaces(ls, n)
    decreases n
  {
    if i < n {
      SpacesForward(ls, i, n - 1);
    }
  }

  /** With blocks of 1 MiB, a block that only the child has is not as long as a full block. */
  lemma SmallNegativeBlock()
    ensures var parent := WithLocator(1, 5);
      var small := parent.(header := parent.header.(blockSize := MIB));
      |VhdOverlay.NegativeBlock(small, small, 0)| != SECTOR * FullBlockSectors(small.header)
  {
    hide IsPowerOfTwo, WithLocator;
    var parent := WithLocator(1, 5);
    var small := parent.(header := parent.header.(blockSize := MIB));
    MebibyteIsPower();
    VhdOverlay.NegativeBlockIsFull(small, small, 0);
  }

  /**
   * Both disks have the block, and only the child marks its first sector: read by sectors, it is still not the
   * parent's after the negative.
   */
  lemma SectorStaysTheChilds()
    ensures var v, size := WithLocator(1, 5), 512 + 2 * MIB;
      var parent, child := v.(blocks := map[0 := Zeros(size)]), v.(blocks := map[0 := Filled(size)]);
      var members :=
        [VhdOverlay.Plain(parent), VhdOverlay.Plain(child), VhdOverlay.NegativeOf(parent, child)];
      VhdOverlay.OrZeros(VhdOverlay.NewestSector(members, 0, 0))
      != VhdOverlay.OrZeros(VhdOverlay.SectorOf(parent, 0, 0))
  {
    var v, size := WithLocator(1, 5), 512 + 2 * MIB;
    var parent, child := v.(blocks := map[0 := Zeros(size)]), v.(blocks := map[0 := Filled(size)]);
    SparseDisk.BlockIsPower();
    BitmapSectors(v.header.blockSize);
    VhdOverlay.SectorOfVhd(parent, 0, 0);
    VhdOverlay.SectorOfVhd(child, 0, 0);
    ZeroBit();
    SingleBits(0, 0);
    VhdOverlay.NegativeBySectors(parent, child, 0, 0);
    assert Filled(size)[512..1024][0] != seq(512, i => 0)[0];
  }

  lemma ZeroBit()
    ensures !BitOf(0, 0)
  {
  }

  lemma MebibyteIsPower()
    ensures IsPowerOfTwo(MIB)
  {
    assert IsPowerOfTwo(32) && IsPowerOfTwo(512);
    assert IsPowerOfTwo(8192);
    assert IsPowerOfTwo(0x2_0000);
  }

  /** A disk of 3 MiB with a table of three entries announces 3 MiB of raw content and gives 4. */
  method LongRawContent() returns (out: Buffer)
    ensures |out| == 4 * MIB
  {
    assert VhdOverlay.RawLength(2 * MIB, -3 * MIB, 0) == 0;
    assert VhdOverlay.RawLength(2 * MIB, -MIB, 1) == MIB;
    assert VhdOverlay.RawLength(2 * MIB, MIB, 2) == 2 * MIB;
    out := VhdOverlay.RawContent(map[], 2 * MIB, 3 * MIB, 3);
  }

  /** Two fragments with the same address: the sparse builder refuses them. */
  method SameAddressTwice(origin: SparseDisk.Origin) returns (r: Option<(Buffer, nat)>)
    requires origin.Valid()
    ensures r == None
  {
    var frag := SparseStream.Fragment(0, Zeros(0x1_0000));
    SameIsNotOne(frag);
    var footer;
    r, footer := SparseDisk.CreateReadableSparseStream(2 * MIB, 0x1_0000, [0, 0], [frag, frag], origin);
  }

  lemma SameIsNotOne(frag: SparseStream.Fragment)
    ensures !SparseStream.OneEach(SparseStream.Addresses([frag, frag]))
  {
    var a := SparseStream.Addresses([frag, frag]);
    assert SparseLayout.IsLast(a, 1) && a[0] == a[1];
  }
}
