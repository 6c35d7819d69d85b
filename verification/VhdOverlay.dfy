/** Views over several VHDs: chains read as one disk, and the disk that undoes a child. */
module VhdOverlay {
  import opened Options
  import opened Bytes
  import opened VhdFormat
  import opened VhdLayout
  import opened VhdStream
  import opened Bitmap

  type Blocks = map<nat, Buffer>

  // ----- synthetic --------------------------------------------------------------------------------------

  /** Each VHD is a differencing disk on the one before it. */
  ghost predicate Chained(vhds: seq<Vhd>) {
    forall i | 0 <= i < |vhds| - 1 :: LinkedTo(vhds[i + 1], vhds[i])
  }

  predicate LinkedTo(child: Vhd, parent: Vhd) {
    child.footer.diskType == DIFFERENCING && |child.header.parent| >= 16
      && child.header.parent[..16] == parent.footer.uuid
  }

  /** What the check of a chain asks of each VHD and the one before it. */
  lemma ChainedWhen(parent: Vhd, child: Vhd)
    requires |child.header.parent| == 536
    ensures Chained([parent, child]) <==> child.footer.diskType == 4 && child.header.parent[..16] == parent.footer.uuid
  {
    assert Chained([parent, child]) ==> LinkedTo([parent, child][1], [parent, child][0]);
  }

  predicate SyntheticContains(vhds: seq<Vhd>, id: nat) { exists i :: 0 <= i < |vhds| && id in vhds[i].blocks }

  /** The most recent VHD that has the block: its index, or None if there is none. */
  method GetVhdWithBlock(vhds: seq<Vhd>, id: nat) returns (r: Option<nat>)
    ensures r.None? <==> !SyntheticContains(vhds, id)
    ensures r.Some?
      ==> r.value < |vhds| && id in vhds[r.value].blocks && forall j | r.value < j < |vhds| :: id !in vhds[j].blocks
  {
    for i := |vhds| downto 0
      invariant forall j | i <= j < |vhds| :: id !in vhds[j].blocks
    {
      if id in vhds[i].blocks {
        return Some(i);
      }
    }
    return None;
  }

  /** The disk of a chain: every block from the most recent VHD that has it. */
  function Merged(vhds: seq<Vhd>): Blocks {
    if vhds == [] then map[] else Merged(vhds[..|vhds| - 1]) + vhds[|vhds| - 1].blocks
  }

  lemma {:induction false} MergedBlock(vhds: seq<Vhd>, i: nat, id: nat)
    requires i < |vhds| && id in vhds[i].blocks && forall j | i < j < |vhds| :: id !in vhds[j].blocks
    ensures id in Merged(vhds) && Merged(vhds)[id] == vhds[i].blocks[id]
  {
    if i < |vhds| - 1 {
      MergedBlock(vhds[..|vhds| - 1], i, id);
    }
  }

  lemma {:induction false} MergedContains(vhds: seq<Vhd>, id: nat)
    ensures id in Merged(vhds) <==> SyntheticContains(vhds, id)
  {
    if vhds != [] {
      var front := vhds[..|vhds| - 1];
      MergedContains(front, id);
      if SyntheticContains(front, id) {
        var i :| 0 <= i < |front| && id in front[i].blocks;
        assert id in vhds[i].blocks;
      }
      if SyntheticContains(vhds, id) && id !in vhds[|vhds| - 1].blocks {
        var i :| 0 <= i < |vhds| && id in vhds[i].blocks;
        assert id in front[i].blocks;
      }
    }
  }

  method ReadBlock(vhds: seq<Vhd>, id: nat) returns (block: Option<Buffer>)
    ensures block == if id in Merged(vhds) then Some(Merged(vhds)[id]) else None
  {
    var i := GetVhdWithBlock(vhds, id);
    MergedContains(vhds, id);
    if i.None? {
      return None;
    }
    MergedBlock(vhds, i.value, id);
    return Some(vhds[i.value].blocks[id]);
  }

  /** The header and footer of a chain read as one VHD: those of the newest, attached where the oldest is. */
  function Synthetic(vhds: seq<Vhd>): (v: Vhd)
    requires vhds != []
    ensures v.blocks == Merged(vhds) && v.footer.uuid == vhds[|vhds| - 1].footer.uuid
    ensures v.footer.diskType == vhds[0].footer.diskType
    ensures |v.header.parent| == |vhds[0].header.parent|
    ensures |v.header.parent| >= 16 ==> v.header.parent[..16] == vhds[0].header.parent[..16]
  {
    var last, root := vhds[|vhds| - 1], vhds[0];
    Vhd(last.footer.(diskType := root.footer.diskType),
        last.header.(locators := root.header.locators, tableOffset := FOOTER_SIZE + HEADER_SIZE,
          parent := ParentOf(root.header.parent, last.header.parent)),
        Merged(vhds), last.locatorData)
  }

  /** Identity, time and name of the oldest VHD's parent; the reserved word between them stays the newest one's. */
  function ParentOf(root: Buffer, last: Buffer): (parent: Buffer)
    ensures |parent| == |root|
    ensures |root| >= 16 ==> parent[..16] == root[..16]
  {
    if |root| == |last| == 536 then root[..20] + last[20..24] + root[24..] else root
  }

  /**
   * Field by field: sizes, identity and the table's length are the newest VHD's; disk type, parent and the
   * places of the parent locators are the oldest one's, while the data of these locators is the newest one's.
   */
  lemma SyntheticFields(vhds: seq<Vhd>)
    requires vhds != [] && ValidHeader(vhds[0].header) && ValidHeader(vhds[|vhds| - 1].header)
    ensures var v, last, root := Synthetic(vhds), vhds[|vhds| - 1], vhds[0];
      && v.footer.(diskType := last.footer.diskType) == last.footer && v.footer.diskType == root.footer.diskType
      && v.header.maxTableEntries == last.header.maxTableEntries && v.header.blockSize == last.header.blockSize
      && v.header.reserved == last.header.reserved && v.header.tableOffset == 1536
      && v.header.locators == root.header.locators && v.locatorData == last.locatorData
      && v.header.parent[..20] == root.header.parent[..20] && v.header.parent[20..24] == last.header.parent[20..24]
      && v.header.parent[24..] == root.header.parent[24..]
  {
  }

  lemma MergedLast(vhds: seq<Vhd>)
    requires vhds != []
    ensures Merged(vhds) == Merged(vhds[..|vhds| - 1]) + vhds[|vhds| - 1].blocks
  {
  }

  /** One more VHD at the end of both. */
  lemma LaterOnes(a: Blocks, b: Blocks, whole: Blocks, c: Blocks)
    requires whole == a + b
    ensures whole + c == a + (b + c)
  {
  }

  lemma SameFront(a: seq<Vhd>, b: seq<Vhd>)
    requires b != []
    ensures (a + b)[..|a + b| - 1] == a + b[..|b| - 1] && (a + b)[|a + b| - 1] == b[|b| - 1]
  {
  }

  lemma NoneMerged()
    ensures Merged([]) == map[]
  {
  }

  /** Reading a chain in two parts, each as one VHD, is reading the chain. */
  lemma {:induction false} MergedInParts(ancestors: seq<Vhd>, children: seq<Vhd>)
    ensures Merged(ancestors + children) == Merged(ancestors) + Merged(children)
  {
    hide Merged;
    var n := |children| - 1;
    if n < 0 {
      NoneMerged();
      assert ancestors + children == ancestors;
    } else {
      MergedInParts(ancestors, children[..n]);
      MergedLast(children);
      MergedLast(ancestors + children);
      SameFront(ancestors, children);
      LaterOnes(Merged(ancestors), Merged(children[..n]), Merged(ancestors + children[..n]), children[n].blocks);
    }
  }

  /** Merging the synthetic VHD of the children into the ancestor gives the disk of the whole chain. */
  lemma MergeOfSynthetic(ancestor: Vhd, children: seq<Vhd>)
    requires children != []
    ensures ancestor.blocks + Synthetic(children).blocks == Merged([ancestor] + children)
  {
    MergedInParts([ancestor], children);
    assert Merged([ancestor]) == ancestor.blocks;
  }

  /** A chain in two parts is a chain of the two synthetic VHDs, and each part is one. */
  lemma ChainInParts(a: seq<Vhd>, b: seq<Vhd>)
    requires a != [] && b != []
    ensures Chained(a + b) <==> Chained(a) && Chained(b) && Chained([Synthetic(a), Synthetic(b)])
  {
    var n := |a|;
    assert LinkedTo(Synthetic(b), Synthetic(a)) <==> LinkedTo(b[0], a[n - 1]);
    if Chained(a + b) {
      forall i | 0 <= i < |a| - 1 ensures LinkedTo(a[i + 1], a[i]) {
        assert LinkedTo((a + b)[i + 1], (a + b)[i]);
      }
      forall i | 0 <= i < |b| - 1 ensures LinkedTo(b[i + 1], b[i]) {
        assert LinkedTo((a + b)[n + i + 1], (a + b)[n + i]);
      }
      assert LinkedTo((a + b)[n], (a + b)[n - 1]);
    }
    if Chained(a) && Chained(b) && Chained([Synthetic(a), Synthetic(b)]) {
      assert LinkedTo([Synthetic(a), Synthetic(b)][1], [Synthetic(a), Synthetic(b)][0]);
      forall i | 0 <= i < |a + b| - 1 ensures LinkedTo((a + b)[i + 1], (a + b)[i]) {
        if i >= n {
          assert LinkedTo(b[i - n + 1], b[i - n]);
        }
      }
    }
  }

  // ----- data of a disk -----------------------------------------------------------------------------------

  /** The data of a block, after its bitmap. */
  function Data(block: Buffer, bitmapSize: nat): Buffer { if bitmapSize <= |block| then block[bitmapSize..] else [] }

  function BitmapSize(blockSize: nat): nat { SECTOR * SectorsOfBitmap(blockSize) }

  /** What a reader of the whole disk gets for a block. */
  function DiskBlock(blocks: Blocks, blockSize: nat, id: nat): Buffer {
    if id in blocks then Data(blocks[id], BitmapSize(blockSize)) else Zeros(blockSize)
  }

  /** A block as it is read. */
  datatype Block = Block(bitmap: Buffer, data: Buffer, buffer: Buffer)

  function Split(buffer: Buffer, blockSize: nat): Block {
    var bitmapSize := BitmapSize(blockSize);
    Block(if bitmapSize <= |buffer| then buffer[..bitmapSize] else buffer, Data(buffer, bitmapSize), buffer)
  }

  ghost predicate SizedBlocks(blocks: Blocks, blockSize: nat) {
    forall id | id in blocks :: |blocks[id]| == BitmapSize(blockSize) + blockSize
  }

  // ----- negative -----------------------------------------------------------------------------------------

  /** The bitmap of a block that only the child has: one bit a sector, not rounded up to whole sectors. */
  function NegativeBitmapSize(blockSize: nat): nat { SectorsPerBlock(blockSize) / 8 }

  /** readBlock of the negative: the parent's block, or one that is all there and all zeros. */
  function ReadNegative(parent: Vhd, id: nat): Block {
    var blockSize := parent.header.blockSize;
    if id in parent.blocks then Split(parent.blocks[id], blockSize)
    else
      var bitmap, data := Filled(NegativeBitmapSize(blockSize)), Zeros(blockSize);
      Block(bitmap, data, bitmap + data)
  }

  function NegativeBlock(parent: Vhd, child: Vhd, id: nat): Buffer { ReadNegative(parent, id).buffer }

  /** The parent's content for every block the child has. */
  function Negative(parent: Vhd, child: Vhd): (v: Vhd)
    requires |parent.header.parent| >= 16
  {
    Vhd(parent.footer.(diskType := DIFFERENCING),
        parent.header.(parent := child.footer.uuid + parent.header.parent[16..]),
        map id | id in child.blocks :: NegativeBlock(parent, child, id), parent.locatorData)
  }

  /** Field by field: the parent's, but for the disk type and the identity of its own parent, the child. */
  lemma NegativeFields(parent: Vhd, child: Vhd)
    requires |parent.header.parent| == 536 && |child.footer.uuid| == 16
    ensures var v := Negative(parent, child);
      && v.footer.(diskType := parent.footer.diskType) == parent.footer && v.footer.diskType == 4
      && v.header.(parent := parent.header.parent) == parent.header
      && v.header.parent[..16] == child.footer.uuid && v.header.parent[16..] == parent.header.parent[16..]
      && v.blocks.Keys == child.blocks.Keys && v.locatorData == parent.locatorData
  {
  }

  /** It fits on top of the child. */
  lemma NegativeIsChained(parent: Vhd, child: Vhd)
    requires |parent.header.parent| == 536 && |child.footer.uuid| == 16 && Chained([parent, child])
    ensures Chained([parent, child, Negative(parent, child)])
  {
    var vs := [parent, child, Negative(parent, child)];
    assert LinkedTo([parent, child][1], [parent, child][0]);
    assert vs[2].header.parent[..16] == child.footer.uuid;
    forall i | 0 <= i < |vs| - 1 ensures LinkedTo(vs[i + 1], vs[i]) {
    }
  }

  /** Blocks of the size that the rest of the library expects: if and only if the block size is a multiple of 2 MiB. */
  lemma NegativeBlockIsFull(parent: Vhd, child: Vhd, id: nat)
    requires ValidBlockSize(parent.header) && IsPowerOfTwo(parent.header.blockSize) && id !in parent.blocks
    ensures |NegativeBlock(parent, child, id)| == SECTOR * FullBlockSectors(parent.header)
      <==> parent.header.blockSize % 0x20_0000 == 0
  {
    hide SectorsOfBitmap, SectorsPerBlock, IsPowerOfTwo;
    var n := parent.header.blockSize;
    WholeSectors(n);
    BitmapIsRounded(n);
    assert |NegativeBlock(parent, child, id)| == NegativeBitmapSize(n) + n;
  }

  lemma WholeSectors(n: nat)
    requires n % SECTOR == 0
    ensures SECTOR * SectorsPerBlock(n) == n
  {
  }

  /** The two sizes of the bitmap of a block. */
  lemma BitmapIsRounded(n: nat)
    requires n >= SECTOR && IsPowerOfTwo(n)
    ensures NegativeBitmapSize(n) == SECTOR * SectorsOfBitmap(n) <==> n % 0x20_0000 == 0
  {
    hide SectorsOfBitmap, SectorsRoundUpNoZero;
    if n < 4096 {
      assert NegativeBitmapSize(n) == 0;
    } else {
      assert IsPowerOfTwo(4096);
      var q := PowerDividesPower(n, 4096);
      assert NegativeBitmapSize(n) == q;
      RoundedUp(n, q);
    }
  }

  lemma RoundedUp(n: nat, q: nat)
    requires n == 4096 * q && q > 0 && SectorsPerBlock(n) / 8 == q
    ensures q == SECTOR * SectorsOfBitmap(n) <==> n % 0x20_0000 == 0
  {
    assert q % 512 == 0 <==> n % 0x20_0000 == 0;
  }

  /** The members of a chain: VHDs with their own blocks, and negatives. */
  datatype Member = Plain(vhd: Vhd) | NegativeOf(parent: Vhd, child: Vhd) {
    predicate ContainsBlock(id: nat) { if Plain? then id in vhd.blocks else id in child.blocks }

    function ReadBlock(id: nat): Block
      requires ContainsBlock(id)
    {
      if Plain? then Split(vhd.blocks[id], vhd.header.blockSize) else ReadNegative(parent, id)
    }
  }

  /** The block of the most recent member that has it. */
  function Newest(members: seq<Member>, id: nat): Option<Block> {
    if members == [] then None
    else if members[|members| - 1].ContainsBlock(id) then Some(members[|members| - 1].ReadBlock(id))
    else Newest(members[..|members| - 1], id)
  }

  /** What a reader of the chain's disk gets for a block. */
  method ReadData(members: seq<Member>, blockSize: nat, id: nat) returns (data: Buffer)
    ensures data == match Newest(members, id) case Some(block) => block.data case None => Zeros(blockSize)
  {
    assert members[..|members|] == members;
    for i := |members| downto 0
      invariant Newest(members, id) == Newest(members[..i], id)
    {
      if members[i].ContainsBlock(id) {
        return members[i].ReadBlock(id).data;
      }
      assert members[..i + 1][..i] == members[..i];
    }
    return Zeros(blockSize);
  }

  /**
   * Read through the parent, the child and the negative, each block of the disk is the parent's, whatever the
   * block size.
   */
  method NegativeRestores(parent: Vhd, child: Vhd, id: nat) returns (data: Buffer)
    ensures data == DiskBlock(parent.blocks, parent.header.blockSize, id)
  {
    var members := [Plain(parent), Plain(child), NegativeOf(parent, child)];
    data := ReadData(members, parent.header.blockSize, id);
    assert members[..2] == [Plain(parent), Plain(child)] && members[..2][..1] == [Plain(parent)];
    assert Newest([Plain(parent)], id)
      == if id in parent.blocks then Some(Split(parent.blocks[id], parent.header.blockSize)) else None;
  }

  /** A block that only the child has reads as one whose sectors are all there and all zeros. */
  lemma NegativeMarks(parent: Vhd, id: nat, s: nat)
    requires id !in parent.blocks
    ensures var block, n := ReadNegative(parent, id), parent.header.blockSize;
      && (s / 8 < |block.bitmap| ==> Test(block.bitmap, s)) && |block.data| == n
      && (s / 8 < |block.bitmap| <==> s / 8 < n / 512 / 8)
      && (s < n / 512 ==> block.data[512 * s..512 * s + 512] == seq(512, i => 0))
  {
    SingleBits(s % 8, s % 8);
  }

  /** A sector of a block, if its bitmap marks it. */
  function SectorIn(block: Block, s: nat): Option<Buffer> {
    if s / 8 < |block.bitmap| && Test(block.bitmap, s) && 512 * s + 512 <= |block.data|
    then Some(block.data[512 * s..512 * s + 512]) else None
  }

  /** The sector of the most recent member whose bitmap marks it. */
  function NewestSector(members: seq<Member>, id: nat, s: nat): Option<Buffer> {
    if members == [] then None
    else
      var last, rest := members[|members| - 1], NewestSector(members[..|members| - 1], id, s);
      if last.ContainsBlock(id) && SectorIn(last.ReadBlock(id), s).Some? then SectorIn(last.ReadBlock(id), s) else rest
  }

  function OrZeros(sector: Option<Buffer>): Buffer { if sector.Some? then sector.value else seq(512, i => 0) }

  function SectorOf(vhd: Vhd, id: nat, s: nat): Option<Buffer> {
    if id in vhd.blocks then SectorIn(Split(vhd.blocks[id], vhd.header.blockSize), s) else None
  }

  /** Sector `s` of a VHD's block, in its bytes: bit `s` of the bitmap in front, and 512 bytes after the bitmap. */
  lemma SectorOfVhd(vhd: Vhd, id: nat, s: nat)
    requires s < vhd.header.blockSize / 512
    requires id in vhd.blocks
      ==> |vhd.blocks[id]| == 512 * SectorsOfBitmap(vhd.header.blockSize) + vhd.header.blockSize
    ensures OrZeros(None) == seq(512, i => 0)
    ensures id !in vhd.blocks ==> SectorOf(vhd, id, s) == None
    ensures id in vhd.blocks ==>
      var at := 512 * SectorsOfBitmap(vhd.header.blockSize) + 512 * s;
      at + 512 <= |vhd.blocks[id]|
      && SectorOf(vhd, id, s) == if s / 8 < 512 * SectorsOfBitmap(vhd.header.blockSize) && Test(vhd.blocks[id], s)
                                 then Some(vhd.blocks[id][at..at + 512]) else None
  {
    hide SectorsOfBitmap;
    if id in vhd.blocks {
      var b, w := vhd.blocks[id], 512 * SectorsOfBitmap(vhd.header.blockSize);
      assert Split(b, vhd.header.blockSize) == Block(b[..w], b[w..], b);
      assert b[w..][512 * s..512 * s + 512] == b[w + 512 * s..w + 512 * s + 512];
    }
  }

  /**
   * Sector by sector, by the bitmaps: what only the child has is zeros again, as far as the negative's bitmap
   * goes, and what the parent marks is the parent's. A sector of a block of both, which only the child marks, is
   * still the child's: the parent's disk comes back if and only if there is none, but of zeros.
   */
  lemma NegativeBySectors(parent: Vhd, child: Vhd, id: nat, s: nat)
    requires s < parent.header.blockSize / 512
    ensures var own, over := SectorOf(parent, id, s), SectorOf(child, id, s);
      var read := NewestSector([Plain(parent), Plain(child), NegativeOf(parent, child)], id, s);
      var covered := s / 8 < parent.header.blockSize / 512 / 8;
      && (id in child.blocks && id !in parent.blocks && covered ==> read == Some(seq(512, i => 0)))
      && (own.Some? && id in child.blocks ==> read == own)
      && (id !in child.blocks ==> read == own)
      && (OrZeros(read) == OrZeros(own) <==>
          || (id in parent.blocks && own.Some?) || id !in child.blocks || OrZeros(over) == OrZeros(None)
          || (id !in parent.blocks && covered))
  {
    var members := [Plain(parent), Plain(child), NegativeOf(parent, child)];
    var two, one := [Plain(parent), Plain(child)], [Plain(parent)];
    assert members[..2] == two && two[..1] == one && one[..0] == [];
    hide SectorIn, Split, ReadNegative, Test;
    assert NewestSector(one, id, s) == SectorOf(parent, id, s);
    assert NewestSector(two, id, s)
      == if SectorOf(child, id, s).Some? then SectorOf(child, id, s) else SectorOf(parent, id, s);
    NegativeSector(parent, id, s);
  }

  lemma NegativeSector(parent: Vhd, id: nat, s: nat)
    requires s < parent.header.blockSize / 512
    ensures SectorIn(ReadNegative(parent, id), s)
      == if id in parent.blocks then SectorOf(parent, id, s)
         else if s / 8 < parent.header.blockSize / 512 / 8 then Some(seq(512, i => 0)) else None
  {
    if id !in parent.blocks {
      NegativeMarks(parent, id, s);
    }
  }

  /** By whole buffers, where these have the size of a full block. */
  lemma NegativeBuffersRestore(parent: Vhd, child: Vhd, id: nat)
    requires |parent.header.parent| >= 16 && parent.header.blockSize % 0x20_0000 == 0 && ValidBlockSize(parent.header)
    requires SizedBlocks(parent.blocks, parent.header.blockSize) && SizedBlocks(child.blocks, parent.header.blockSize)
    ensures var whole := Merged([parent, child, Negative(parent, child)]);
      DiskBlock(whole, parent.header.blockSize, id) == DiskBlock(parent.blocks, parent.header.blockSize, id)
  {
    var n, vs := parent.header.blockSize, [parent, child, Negative(parent, child)];
    MergedContains(vs, id);
    if id in child.blocks {
      MergedBlock(vs, 2, id);
      var q := n / 0x20_0000;
      assert SectorsPerBlock(n) / 8 == 512 * q && BitmapSize(n) == 512 * q;
    } else if id in parent.blocks {
      MergedBlock(vs, 0, id);
    } else {
      forall i | 0 <= i < |vs| ensures id !in vs[i].blocks {
      }
    }
  }

  // ----- raw data ------------------------------------------------------------------------------------------

  /** A cache of block contents that agrees with the VHD, however many it has. */
  ghost predicate RightCache(cache: Blocks, blocks: Blocks, blockSize: nat) {
    forall id | id in cache :: id in blocks && cache[id] == Data(blocks[id], BitmapSize(blockSize))
  }

  /** Byte `p` of the disk. */
  function RawByte(blocks: Blocks, blockSize: nat, p: nat): byte
    requires blockSize > 0 && SizedBlocks(blocks, blockSize)
  {
    DiskBlock(blocks, blockSize, p / blockSize)[p % blockSize]
  }

  /** Byte `p` of the disk is in block `p / blockSize`, after its bitmap; without that block it is zero. */
  lemma RawBytes(blocks: Blocks, blockSize: nat, p: nat)
    requires blockSize > 0 && SizedBlocks(blocks, blockSize)
    ensures var id, k := p / blockSize, 512 * SectorsOfBitmap(blockSize) + p % blockSize;
      && (id in blocks ==> k < |blocks[id]| && RawByte(blocks, blockSize, p) == blocks[id][k])
      && (id !in blocks ==> RawByte(blocks, blockSize, p) == 0)
  {
  }

  /** The bytes are those of the disk from `start` on. */
  ghost predicate IsRaw(blocks: Blocks, blockSize: nat, start: nat, bytes: Buffer)
    requires blockSize > 0 && SizedBlocks(blocks, blockSize)
  {
    forall k | 0 <= k < |bytes| :: bytes[k] == RawByte(blocks, blockSize, start + k)
  }

  lemma ByteOfBlock(blockSize: nat, id: nat, o: nat)
    requires o < blockSize
    ensures (id * blockSize + o) / blockSize == id && (id * blockSize + o) % blockSize == o
  {
    var p := id * blockSize + o;
    var q, r := p / blockSize, p % blockSize;
    assert p == q * blockSize + r;
    assert (q - id) * blockSize == o - r;
    assert q - id >= 1 ==> (q - id) * blockSize >= blockSize;
    assert id - q >= 1 ==> (id - q) * blockSize >= blockSize;
  }

  /** A part of a block after what has been copied. */
  lemma PartIsRaw(blocks: Blocks, blockSize: nat, start: nat, bytes: Buffer, id: nat, from: nat, to: nat)
    requires blockSize > 0 && SizedBlocks(blocks, blockSize) && from <= to <= blockSize
    requires IsRaw(blocks, blockSize, start, bytes) && start + |bytes| == id * blockSize + from
    ensures IsRaw(blocks, blockSize, start, bytes + DiskBlock(blocks, blockSize, id)[from..to])
  {
    var part := DiskBlock(blocks, blockSize, id)[from..to];
    forall k | 0 <= k < |bytes + part| ensures (bytes + part)[k] == RawByte(blocks, blockSize, start + k) {
      if k >= |bytes| {
        ByteOfBlock(blockSize, id, from + (k - |bytes|));
        assert start + k == id * blockSize + (from + (k - |bytes|));
      }
    }
  }

  /** readRawData: `length` bytes of the disk from `start`, and the cache with the blocks that were read. */
  method ReadRawData(blocks: Blocks, blockSize: nat, start: nat, length: nat, cache: Blocks)
    returns (buf: Buffer, cache': Blocks)
    requires blockSize > 0 && SizedBlocks(blocks, blockSize) && RightCache(cache, blocks, blockSize)
    ensures |buf| == length && IsRaw(blocks, blockSize, start, buf) && RightCache(cache', blocks, blockSize)
  {
    var startBlockId, endBlockId := start / blockSize, (start + length) / blockSize;
    var startOffset := start % blockSize;
    BlocksInOrder(start, start + length, blockSize);
    buf, cache' := [], cache;
    hide DiskBlock, IsRaw, Data, BitmapSize;
    assert IsRaw(blocks, blockSize, start, []) by { NothingRaw(blocks, blockSize, start); }
    for blockId := startBlockId to endBlockId + 1
      invariant RightCache(cache', blocks, blockSize) && IsRaw(blocks, blockSize, start, buf)
      invariant blockId <= endBlockId
        ==> start + |buf| == blockId * blockSize + if blockId == startBlockId then startOffset else 0
      invariant blockId > endBlockId ==> |buf| == length
    {
      var data;
      data, cache' := BlockData(blocks, blockSize, blockId, cache');
      var offsetStart := if blockId == startBlockId then startOffset else 0;
      var offsetEnd := if blockId == endBlockId then (start + length) % blockSize else blockSize;
      EndAfterStart(start, length, blockSize);
      PartIsRaw(blocks, blockSize, start, buf, blockId, offsetStart, offsetEnd);
      buf := buf + data[offsetStart..offsetEnd];
      assert (blockId + 1) * blockSize == blockId * blockSize + blockSize;
    }
  }

  lemma NothingRaw(blocks: Blocks, blockSize: nat, start: nat)
    requires blockSize > 0 && SizedBlocks(blocks, blockSize)
    ensures IsRaw(blocks, blockSize, start, [])
  {
  }

  lemma BlocksInOrder(a: nat, b: nat, blockSize: nat)
    requires blockSize > 0 && a <= b
    ensures a / blockSize <= b / blockSize
    ensures a == a / blockSize * blockSize + a % blockSize && b == b / blockSize * blockSize + b % blockSize
  {
    var q, s := a / blockSize, b / blockSize;
    assert a == q * blockSize + a % blockSize && b == s * blockSize + b % blockSize;
    assert q - s >= 1 ==> (q - s) * blockSize >= blockSize;
  }

  /** Inside one block the end is not before the start. */
  lemma EndAfterStart(start: nat, length: nat, blockSize: nat)
    requires blockSize > 0
    ensures start / blockSize == (start + length) / blockSize ==> start % blockSize <= (start + length) % blockSize
  {
    BlocksInOrder(start, start + length, blockSize);
  }

  method BlockData(blocks: Blocks, blockSize: nat, id: nat, cache: Blocks) returns (data: Buffer, cache': Blocks)
    requires SizedBlocks(blocks, blockSize) && RightCache(cache, blocks, blockSize)
    ensures data == DiskBlock(blocks, blockSize, id) && |data| == blockSize && RightCache(cache', blocks, blockSize)
  {
    cache' := cache;
    if id in blocks {
      if id !in cache {
        cache' := cache[id := Data(blocks[id], BitmapSize(blockSize))];
      }
      data := cache'[id];
    } else {
      data := Zeros(blockSize);
    }
  }

  // ----- the raw stream -------------------------------------------------------------------------------------

  /** JavaScript's `slice(0, end)`: a negative end counts from the end of the buffer. */
  function SliceTo(b: Buffer, end: int): (r: Buffer)
    ensures |r| == if end >= |b| then |b| else if end >= 0 then end else Max(0, |b| + end)
  {
    if end >= |b| then b else if end >= 0 then b[..end] else b[..Max(0, |b| + end)]
  }

  /** How many bytes `n` more blocks give when `remaining` bytes of the disk are left. */
  function RawLength(blockSize: nat, remaining: int, n: nat): nat
    decreases n
  {
    if n == 0 then 0
    else
      (if remaining >= blockSize then blockSize
       else if remaining >= 0 then remaining
       else Max(0, blockSize + remaining))
      + RawLength(blockSize, remaining - blockSize, n - 1)
  }

  /** Every block but the last one is entirely on the disk. */
  predicate NoSpareBlock(blockSize: nat, currentSize: nat, n: nat) { n == 0 || (n - 1) * blockSize <= currentSize }

  method RawContent(blocks: Blocks, blockSize: nat, currentSize: nat, maxTableEntries: nat) returns (out: Buffer)
    requires SizedBlocks(blocks, blockSize) && blockSize > 0
    ensures |out| == RawLength(blockSize, currentSize, maxTableEntries)
    ensures maxTableEntries == 0 || (maxTableEntries - 1) * blockSize <= currentSize
      ==> IsRaw(blocks, blockSize, 0, out)
  {
    out := [];
    var remainingSize: int := currentSize;
    for blockId := 0 to maxTableEntries
      invariant remainingSize == currentSize - blockId * blockSize
      invariant |out| + RawLength(blockSize, remainingSize, maxTableEntries - blockId)
        == RawLength(blockSize, currentSize, maxTableEntries)
      invariant NoSpareBlock(blockSize, currentSize, maxTableEntries) ==> IsRaw(blocks, blockSize, 0, out)
      invariant NoSpareBlock(blockSize, currentSize, maxTableEntries) && blockId < maxTableEntries
        ==> |out| == blockId * blockSize
    {
      hide IsRaw;
      var data, cache := BlockData(blocks, blockSize, blockId, map[]);
      var buffer := if remainingSize < blockSize then SliceTo(data, remainingSize) else data;
      if NoSpareBlock(blockSize, currentSize, maxTableEntries) {
        EnoughLeft(blockId, maxTableEntries, blockSize, currentSize);
        PartIsRaw(blocks, blockSize, 0, out, blockId, 0, |buffer|);
        assert DiskBlock(blocks, blockSize, blockId)[0..|buffer|] == buffer;
      }
      assert blockId * blockSize + blockSize == (blockId + 1) * blockSize;
      remainingSize := remainingSize - blockSize;
      out := out + buffer;
    }
  }

  lemma EnoughLeft(id: nat, n: nat, blockSize: nat, size: nat)
    requires id < n && (n - 1) * blockSize <= size
    ensures size - id * blockSize >= 0 && (id < n - 1 ==> size - id * blockSize >= blockSize)
  {
    Times(id, n - 1, blockSize);
    if id < n - 1 {
      Times(id + 1, n - 1, blockSize);
      assert (id + 1) * blockSize == id * blockSize + blockSize;
    }
  }

  lemma Times(a: nat, b: nat, c: nat)
    requires a <= b
    ensures a * c <= b * c
  {
    assert (b - a) * c >= 0;
  }

  lemma {:induction false} NothingLeft(blockSize: nat, remaining: int, n: nat)
    requires blockSize + remaining <= 0
    ensures RawLength(blockSize, remaining, n) == 0
    decreases n
  {
    if n > 0 {
      NothingLeft(blockSize, remaining - blockSize, n - 1);
    }
  }

  /** The blocks that hold the disk give its size; the first spare block after them gives the last part once more. */
  lemma {:induction false} RawLengthIs(blockSize: nat, remaining: nat, q: nat, last: nat, n: nat)
    requires remaining == q * blockSize + last && last < blockSize
    ensures RawLength(blockSize, remaining, n)
      == if n <= q then n * blockSize else if n == q + 1 then remaining else remaining + last
  {
    if n > 0 && q > 0 {
      assert remaining - blockSize == (q - 1) * blockSize + last;
      assert (q - 1) * blockSize >= 0;
      RawLengthIs(blockSize, remaining - blockSize, q - 1, last, n - 1);
      assert n * blockSize == (n - 1) * blockSize + blockSize;
    } else if n > 1 {
      assert remaining == last;
      NothingLeft(blockSize, last - 2 * blockSize, n - 2);
    }
  }

  /**
   * The raw content has the announced length if and only if the size is a whole number of blocks or
   * the table has no entry to spare.
   */
  lemma RawContentLength(h: Header, f: Footer)
    requires h.blockSize > 0 && FitsDisk(h, f)
    ensures RawLength(h.blockSize, f.currentSize, h.maxTableEntries) == f.currentSize
      <==> f.currentSize % h.blockSize == 0 || h.maxTableEntries == CeilDiv(f.currentSize, h.blockSize)
  {
    var n, bs, size := h.maxTableEntries, h.blockSize, f.currentSize;
    var q, last := size / bs, size % bs;
    assert size == q * bs + last;
    RawLengthIs(bs, size, q, last, n);
    Enough(n, bs, q, last);
    hide FitsDisk, RawLength;
    if last > 0 {
      Ceiling(bs, CeilDiv(size, bs), q, last);
    } else if n == q {
      assert n * bs == size;
    }
  }

  lemma Enough(n: nat, bs: nat, q: nat, last: nat)
    requires n * bs >= q * bs + last && last < bs
    ensures n >= q && (last > 0 ==> n > q)
  {
    var d := n - q;
    assert n * bs == q * bs + d * bs;
    Sign(bs, d);
  }

  lemma Ceiling(bs: nat, c: int, q: nat, last: nat)
    requires bs * (c - 1) < q * bs + last <= bs * c && 0 < last < bs
    ensures c == q + 1
  {
    var d := c - 1 - q;
    assert bs * (c - 1) == q * bs + d * bs && bs * c == q * bs + d * bs + bs;
    Sign(bs, d);
  }

  lemma Sign(bs: nat, d: int)
    ensures d >= 1 ==> d * bs >= bs
    ensures d <= -1 ==> d * bs <= 0 - bs
    ensures d == 0 ==> d * bs == 0
  {
  }
}
