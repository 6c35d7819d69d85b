/** The sparse stream as a whole, and what a reader of the resulting file finds in it. */
module SparseDisk {
  import opened Options
  import opened Bytes
  import opened VhdFormat
  import opened VhdLayout
  import opened Geometry
  import opened Bitmap
  import opened VhdSectors
  import VhdParse
  import VhdStreamRoundTrip
  import opened SparseLayout
  import opened SparseStream

  /** Number of entries of the table: one more than the size asks for. */
  function Entries(diskSize: nat): (n: nat)
    ensures forall address: nat | address < diskSize :: BlockOf(address) < n
  {
    CeilDiv(diskSize, BLOCK_SIZE) + 1
  }

  lemma BlockIsPower()
    ensures IsPowerOfTwo(BLOCK_SIZE) && IsPowerOfTwo(SECTOR)
  {
    assert IsPowerOfTwo(32) && IsPowerOfTwo(512);
    assert IsPowerOfTwo(8192);
    assert IsPowerOfTwo(0x2_0000);
    assert IsPowerOfTwo(0x20_0000);
  }

  function CreateHeader(entries: nat): (h: Header)
    requires entries < U32_LIMIT
    ensures ValidHeader(h) && ValidBlockSize(h)
  {
    BlockIsPower();
    Header(FOOTER_SIZE + HEADER_SIZE, entries, BLOCK_SIZE, Zeros(536),
           seq(PARENT_LOCATOR_ENTRIES, i => Locator(0, 0, 0, 0, 0)), Zeros(256))
  }

  /** What the clock, the random generator and the host add to the footer. */
  datatype Origin = Origin(timestamp: nat, creator: Buffer, uuid: Buffer) {
    predicate Valid() { timestamp < U32_LIMIT && |creator| == 12 && |uuid| == 16 }
  }

  function CreateFooter(g: Geometry, origin: Origin): (f: Footer)
    requires origin.Valid() && g.cylinders <= 65535 && g.heads < 256 && g.sectorsPerTrackCylinder < 256
    requires g.actualSize < U32_LIMIT * U32_LIMIT
    ensures ValidFooter(f)
  {
    Footer(2, origin.timestamp, origin.creator, g.actualSize, g.actualSize,
           [g.cylinders / 256, g.cylinders % 256, g.heads, g.sectorsPerTrackCylinder], DYNAMIC, origin.uuid, Zeros(428))
  }

  /** The header of a new disk: 2 MiB blocks, one table entry more than it has of these, no parent. */
  lemma NewHeader(diskSize: nat)
    requires Entries(diskSize) < U32_LIMIT
    ensures var h := CreateHeader(Entries(diskSize));
      && h.tableOffset == 1536 && h.maxTableEntries == (diskSize + 0x1F_FFFF) / 0x20_0000 + 1
      && h.blockSize == 0x20_0000
      && (forall k | 0 <= k < 536 :: h.parent[k] == 0) && (forall k | 0 <= k < 256 :: h.reserved[k] == 0)
      && forall i | 0 <= i < 8 :: h.locators[i] == Locator(0, 0, 0, 0, 0)
  {
  }

  /** The footer of a new disk: dynamic, of the size that its geometry multiplies out to. */
  ghost predicate NewFooter(f: Footer, origin: Origin) {
    && f.features == 2 && f.diskType == 3 && f.originalSize == f.currentSize && |f.diskGeometry| == 4
    && (f.diskGeometry[0] as nat * 256 + f.diskGeometry[1] as nat)
       * (f.diskGeometry[2] as nat * f.diskGeometry[3] as nat)
       * 512 == f.currentSize
    && f.timestamp == origin.timestamp && f.creator == origin.creator && f.uuid == origin.uuid
    && forall k | 0 <= k < |f.reserved| :: f.reserved[k] == 0
  }

  lemma FooterIsNew(g: Geometry, origin: Origin)
    requires g.cylinders <= 65535 && g.heads < 256 && g.sectorsPerTrackCylinder < 256 && origin.Valid()
    requires g.actualSize == g.cylinders * (g.heads * g.sectorsPerTrackCylinder) * 512 < U32_LIMIT * U32_LIMIT
    ensures NewFooter(CreateFooter(g, origin), origin)
  {
    assert g.cylinders / 256 * 256 + g.cylinders % 256 == g.cylinders;
  }

  /** The first sector after the table. */
  function FirstSector(entries: nat): (s: nat)
    ensures SECTOR * s == FOOTER_SIZE + HEADER_SIZE + BatSize(entries)
  {
    3 + SectorsRoundUpNoZero(entries * 4)
  }

  /** The fragment size divides a block into at most 53 parts. */
  predicate GoodSize(size: nat) { size > 0 && BLOCK_SIZE % size == 0 && BLOCK_SIZE / size <= 53 }

  lemma Factors(size: nat) returns (ratio: nat)
    requires GoodSize(size)
    ensures size * ratio == BLOCK_SIZE && size >= SECTOR
  {
    ratio := BLOCK_SIZE / size;
    assert size * ratio == BLOCK_SIZE;
    assert size < SECTOR ==> size * ratio <= SECTOR * ratio;
  }

  /** Such sizes are powers of two of many sectors. */
  lemma GoodSizeIsSectors(size: nat)
    requires GoodSize(size)
    ensures size % SECTOR == 0
  {
    var ratio := Factors(size);
    BlockIsPower();
    FactorOfPower(size, ratio, BLOCK_SIZE);
    hide IsPowerOfTwo;
    var q := PowerDividesPower(size, SECTOR);
  }

  /** The list of addresses announces the fragments. */
  ghost predicate Announced(frags: seq<Fragment>, lbas: seq<nat>, size: nat, diskSize: nat) {
    && |lbas| == |frags|
    && forall i | 0 <= i < |frags| :: frags[i].address == lbas[i] * size < diskSize && |frags[i].data| == size
  }

  function PaddedTable(bat: Table, entries: nat): (b: Buffer)
    requires |bat| == entries && forall i | 0 <= i < |bat| :: 0 <= bat[i] < U32_LIMIT
    ensures |b| == BatSize(entries)
  {
    PackTable(bat) + seq(BatSize(entries) - 4 * entries, i => 0xFF)
  }

  /**
   * The file has the announced length and headers that parse; each sector reads as the last fragment
   * that covers it, and as absent if there is none.
   */
  ghost predicate Built(stream: Buffer, length: nat, footer: Footer, h: Header, frags: seq<Fragment>, size: nat)
    requires Fragments(frags, size)
  {
    && |stream| == length && VhdParse.ParseHeaders(stream) == Some((footer, h))
    && FOOTER_SIZE <= |stream| && stream[..FOOTER_SIZE] == stream[|stream| - FOOTER_SIZE..]
    && h.tableOffset + 4 * h.maxTableEntries <= |stream|
    && forall b: nat, s: nat | b < h.maxTableEntries && s < BLOCK_SECTORS ::
         ReadSector(stream, h, DiskTable(stream, h.tableOffset, h.maxTableEntries), b, s)
           == SectorAt(frags, size, b, s, |frags|)
  }

  lemma TableRead(stream: Buffer, bat: Table, entries: nat, start: nat)
    requires |bat| == entries && forall i | 0 <= i < |bat| :: 0 <= bat[i] < U32_LIMIT
    requires start + BatSize(entries) <= |stream|
    requires stream[start..start + BatSize(entries)] == PaddedTable(bat, entries)
    ensures start + 4 * entries <= |stream| && DiskTable(stream, start, entries) == bat
  {
    var packed, padded := PackTable(bat), PaddedTable(bat, entries);
    forall i | 0 <= i < entries ensures Entry(stream, start, i) == bat[i] {
      PackTableEntry(bat, i);
      U32RoundTrip(bat[i]);
      SubSlice(stream, start, start + BatSize(entries), 4 * i, 4);
      assert padded[4 * i..4 * i + 4] == packed[4 * i..4 * i + 4];
    }
  }

  /** Block `b` stands at byte `at` of the stream, with its bitmap and data. */
  lemma SectorRead(stream: Buffer, h: Header, bat: Table, block: Buffer, frags: seq<Fragment>, size: nat, b: nat,
                   s: nat)
    requires Fragments(frags, size) && h.blockSize == BLOCK_SIZE && s < BLOCK_SECTORS
    requires Used(bat, b) && 0 <= bat[b] && At(stream, SECTOR * bat[b], block)
    requires HoldsFragments(block, frags, size, b, |frags|)
    ensures ReadSector(stream, h, bat, b, s) == SectorAt(frags, size, b, s, |frags|)
  {
    var at := SECTOR * bat[b];
    assert SectorsOfBitmap(h.blockSize) == 1;
    assert stream[at..at + |block|][s / 8] == stream[at + s / 8];
    SubSlice(stream, at, at + |block|, BITMAP_SIZE + SECTOR * s, SECTOR);
    assert Test(block, s) == BitOf(stream[at + s / 8], s % 8);
    hide BitOf, SectorAt;
  }

  lemma AbsentRead(stream: Buffer, h: Header, bat: Table, frags: seq<Fragment>, size: nat, b: nat, s: nat)
    requires Fragments(frags, size) && !Used(bat, b) && forall k | 0 <= k < |frags| :: BlockOf(frags[k].address) != b
    ensures ReadSector(stream, h, bat, b, s) == SectorAt(frags, size, b, s, |frags|)
  {
    NothingYet(frags, size, b, s, |frags|);
  }

  /** A block with fragments, through the table. */
  lemma BlockRead(stream: Buffer, h: Header, bat: Table, blocks: Buffer, first: nat, frags: seq<Fragment>, size: nat,
                  j: nat, s: nat)
    requires Fragments(frags, size) && h.blockSize == BLOCK_SIZE && s < BLOCK_SECTORS
    requires Places(bat, Addresses(frags), first) && Named(Addresses(frags), first)
    requires Sent(frags, size, blocks, |frags|)
    requires At(stream, SECTOR * first, blocks) && j < |frags| && IsLast(Addresses(frags), j)
    ensures var b := BlockOf(Addresses(frags)[j]);
      ReadSector(stream, h, bat, b, s) == SectorAt(frags, size, b, s, |frags|)
  {
    var a := Addresses(frags);
    hide *;
    BlockPlace(bat, blocks, first, frags, size, j);
    SlotAt(stream, blocks, first, Done(a, j));
    SectorRead(stream, h, bat, Slot(blocks, Done(a, j)), frags, size, BlockOf(a[j]), s);
  }

  /** The bytes of the block sent after `rank` others. */
  function Slot(blocks: Buffer, rank: nat): Buffer
    requires FULL_BLOCK * rank + FULL_BLOCK <= |blocks|
  {
    blocks[FULL_BLOCK * rank..FULL_BLOCK * rank + FULL_BLOCK]
  }

  lemma SlotAt(stream: Buffer, blocks: Buffer, first: nat, rank: nat)
    requires At(stream, SECTOR * first, blocks) && FULL_BLOCK * rank + FULL_BLOCK <= |blocks|
    ensures At(stream, SECTOR * (first + rank * FULL_SECTORS), Slot(blocks, rank))
  {
    SubSlice(stream, SECTOR * first, SECTOR * first + |blocks|, FULL_BLOCK * rank, FULL_BLOCK);
  }

  lemma BlockPlace(bat: Table, blocks: Buffer, first: nat, frags: seq<Fragment>, size: nat, j: nat)
    requires Fragments(frags, size) && j < |frags| && IsLast(Addresses(frags), j)
    requires Places(bat, Addresses(frags), first) && Named(Addresses(frags), first)
    requires Sent(frags, size, blocks, |frags|)
    ensures var a := Addresses(frags);
      var b, rank := BlockOf(a[j]), Done(a, j);
      && Used(bat, b) && 0 <= bat[b] == first + rank * FULL_SECTORS && FULL_BLOCK * rank + FULL_BLOCK <= |blocks|
      && HoldsFragments(Slot(blocks, rank), frags, size, b, |frags|)
  {
    var a := Addresses(frags);
    DoneBound(a, j, |a|);
    hide HoldsFragments, BlockOf;
    assert SentBlock(frags, size, blocks, Done(a, j), BlockOf(a[j]), |frags|);
  }

  /** Every sector of the file, through the table. */
  lemma SectorsRead(stream: Buffer, h: Header, bat: Table, blocks: Buffer, first: nat, frags: seq<Fragment>, size: nat,
                    b: nat, s: nat)
    requires Fragments(frags, size) && h.blockSize == BLOCK_SIZE && s < BLOCK_SECTORS && b < |bat|
    requires Places(bat, Addresses(frags), first) && Named(Addresses(frags), first)
    requires Sent(frags, size, blocks, |frags|)
    requires At(stream, SECTOR * first, blocks)
    ensures ReadSector(stream, h, bat, b, s) == SectorAt(frags, size, b, s, |frags|)
  {
    var a := Addresses(frags);
    if Occurs(a, 0, b) {
      var k :| 0 <= k < |a| && BlockOf(a[k]) == b;
      var j := HasLast(a, k);
      BlockRead(stream, h, bat, blocks, first, frags, size, j, s);
    } else {
      forall k | 0 <= k < |frags| ensures BlockOf(frags[k].address) != b {
        assert a[k] == frags[k].address;
      }
      AbsentRead(stream, h, bat, frags, size, b, s);
    }
  }

  /** The stream, from its parts. */
  lemma BuiltFromParts(stream: Buffer, footer: Footer, h: Header, bat: Table, blocks: Buffer, frags: seq<Fragment>,
                       size: nat)
    requires Fragments(frags, size) && ValidFooter(footer) && FitsDisk(h, footer)
    requires h.maxTableEntries < U32_LIMIT && h == CreateHeader(h.maxTableEntries)
    requires |bat| == h.maxTableEntries && forall i | 0 <= i < |bat| :: 0 <= bat[i] < U32_LIMIT
    requires Places(bat, Addresses(frags), FirstSector(h.maxTableEntries)) && Sent(frags, size, blocks, |frags|)
    requires Named(Addresses(frags), FirstSector(h.maxTableEntries))
    requires stream
      == PackFooter(footer) + (PackHeader(h) + (PaddedTable(bat, h.maxTableEntries) + (blocks + PackFooter(footer))))
    ensures Built(stream, SECTOR * PlaceOf(Addresses(frags), FirstSector(h.maxTableEntries), |frags|) + FOOTER_SIZE,
                  footer, h, frags, size)
  {
    hide *;
    SentLength(frags, size, blocks, FirstSector(h.maxTableEntries));
    PartsRead(stream, footer, h, bat, blocks);
    forall b: nat, s: nat | b < h.maxTableEntries && s < BLOCK_SECTORS
      ensures ReadSector(stream, h, bat, b, s) == SectorAt(frags, size, b, s, |frags|)
    {
      SectorsRead(stream, h, bat, blocks, FirstSector(h.maxTableEntries), frags, size, b, s);
    }
    IsBuilt(stream, footer, h, bat, frags, size);
  }

  lemma IsBuilt(stream: Buffer, footer: Footer, h: Header, bat: Table, frags: seq<Fragment>, size: nat)
    requires Fragments(frags, size) && FOOTER_SIZE <= |stream|
    requires VhdParse.ParseHeaders(stream) == Some((footer, h))
    requires stream[..FOOTER_SIZE] == stream[|stream| - FOOTER_SIZE..]
    requires h.tableOffset + 4 * h.maxTableEntries <= |stream|
    requires DiskTable(stream, h.tableOffset, h.maxTableEntries) == bat
    requires forall b: nat, s: nat | b < h.maxTableEntries && s < BLOCK_SECTORS ::
      ReadSector(stream, h, bat, b, s) == SectorAt(frags, size, b, s, |frags|)
    ensures Built(stream, |stream|, footer, h, frags, size)
  {
    hide SectorAt, ReadSector, VhdParse.ParseHeaders, Fragments;
  }

  lemma SentLength(frags: seq<Fragment>, size: nat, blocks: Buffer, first: nat)
    requires Fragments(frags, size) && Sent(frags, size, blocks, |frags|)
    ensures SECTOR * first + |blocks| == SECTOR * PlaceOf(Addresses(frags), first, |frags|)
  {
    hide SentBlock, IsLast, Done, BlockOf, Fragments;
    var done := Done(Addresses(frags), |frags|);
    assert |blocks| == FULL_BLOCK * done;
  }

  lemma LengthIsNat(endOfData: nat)
    ensures SECTOR * endOfData + FOOTER_SIZE >= 0
  {
  }

  lemma PartsRead(stream: Buffer, footer: Footer, h: Header, bat: Table, blocks: Buffer)
    requires ValidFooter(footer) && FitsDisk(h, footer)
    requires h.maxTableEntries < U32_LIMIT && h == CreateHeader(h.maxTableEntries)
    requires |bat| == h.maxTableEntries && forall i | 0 <= i < |bat| :: 0 <= bat[i] < U32_LIMIT
    requires stream
      == PackFooter(footer) + (PackHeader(h) + (PaddedTable(bat, h.maxTableEntries) + (blocks + PackFooter(footer))))
    ensures h.blockSize == BLOCK_SIZE && FOOTER_SIZE <= |stream|
    ensures |stream| == SECTOR * FirstSector(h.maxTableEntries) + |blocks| + FOOTER_SIZE
    ensures VhdParse.ParseHeaders(stream) == Some((footer, h))
    ensures stream[..FOOTER_SIZE] == stream[|stream| - FOOTER_SIZE..]
    ensures h.tableOffset + 4 * h.maxTableEntries <= |stream|
    ensures DiskTable(stream, h.tableOffset, h.maxTableEntries) == bat
    ensures At(stream, SECTOR * FirstSector(h.maxTableEntries), blocks)
  {
    hide DiskTable, At, VhdParse.ParseHeaders, PackTable, Entry, PaddedTable, PackFooter, PackHeader, ValidFooter,
      FitsDisk, BatSize, ValidHeader, CreateHeader, FirstSector;
    HeaderPlaces(h);
    VhdStreamRoundTrip.StreamSlices(stream, PackFooter(footer), PackHeader(h), PaddedTable(bat, h.maxTableEntries),
                                    blocks);
    HeadersRead(stream, footer, h);
    TableRead(stream, bat, h.maxTableEntries, FOOTER_SIZE + HEADER_SIZE);
  }

  lemma HeaderPlaces(h: Header)
    requires h.maxTableEntries < U32_LIMIT && h == CreateHeader(h.maxTableEntries)
    ensures h.tableOffset == FOOTER_SIZE + HEADER_SIZE && h.blockSize == BLOCK_SIZE
  {
  }

  lemma HeadersRead(stream: Buffer, footer: Footer, h: Header)
    requires ValidFooter(footer) && ValidHeader(h) && ValidBlockSize(h) && FitsDisk(h, footer)
    requires |stream| >= FOOTER_SIZE + HEADER_SIZE && stream[..FOOTER_SIZE] == PackFooter(footer)
    requires stream[FOOTER_SIZE..FOOTER_SIZE + HEADER_SIZE] == PackHeader(h)
    ensures VhdParse.ParseHeaders(stream) == Some((footer, h))
  {
    hide PackFooter, PackHeader, ValidFooter, ValidHeader, UnpackFooter, UnpackHeader, FitsDisk;
    FooterRoundTrip(footer);
    HeaderRoundTrip(h, footer);
  }

  /**
   * createReadableSparseStream: the stream and its announced length, or None. It fails exactly when the
   * fragment size is refused, when the last fragment of a block repeats an earlier address, or when a
   * block would start at a sector that a table entry cannot name.
   */
  method CreateReadableSparseStream(diskSize: nat, size: nat, lbas: seq<nat>, frags: seq<Fragment>, origin: Origin)
    returns (r: Option<(Buffer, nat)>, footer: Footer)
    requires Announced(frags, lbas, size, diskSize) && origin.Valid() && Entries(diskSize) < U32_LIMIT
    ensures r.Some? <==>
      && size > 0 && 0x20_0000 % size == 0 && 0x20_0000 / size <= 53
      && OneEach(Addresses(frags)) && Named(Addresses(frags), FirstSector(Entries(diskSize)))
    ensures r.Some? ==> Fragments(frags, size)
    ensures r.Some? ==> Built(r.value.0, r.value.1, footer, CreateHeader(Entries(diskSize)), frags, size)
    ensures footer.currentSize >= SECTOR * TotalSectors(diskSize) && NewFooter(footer, origin)
  {
    hide NewFooter;
    hide ValidHeader, ValidFooter, FitsDisk, Places, Named, Sent, Fragments, PaddedTable, PackFooter, PackHeader,
      OneEach, LastAddresses, Built, BatSize, CreateHeader, Announced, BlockOf, TotalSectors;
    footer := EnlargedFooter(diskSize, origin);
    if size == 0 || BLOCK_SIZE % size != 0 || BLOCK_SIZE / size > 53 {
      return None, footer;
    }
    GoodSizeIsSectors(size);
    FragmentsFit(frags, lbas, size, diskSize);
    r := BuildStream(footer, Entries(diskSize), size, frags);
  }

  /** The footer, whose disk size the geometry may enlarge. */
  method EnlargedFooter(diskSize: nat, origin: Origin) returns (footer: Footer)
    requires origin.Valid() && Entries(diskSize) < U32_LIMIT
    ensures ValidFooter(footer) && FitsDisk(CreateHeader(Entries(diskSize)), footer)
    ensures footer.currentSize >= SECTOR * TotalSectors(diskSize) && NewFooter(footer, origin)
  {
    var g := ComputeGeometryForSize(diskSize);
    TableCovers(g, diskSize);
    FooterIsNew(g, origin);
    footer := CreateFooter(g, origin);
  }

  method BuildStream(footer: Footer, entries: nat, size: nat, frags: seq<Fragment>) returns (r: Option<(Buffer, nat)>)
    requires Fragments(frags, size) && forall i | 0 <= i < |frags| :: BlockOf(frags[i].address) < entries
    requires entries < U32_LIMIT && ValidFooter(footer) && FitsDisk(CreateHeader(entries), footer)
    ensures r.Some? <==> OneEach(Addresses(frags)) && Named(Addresses(frags), FirstSector(entries))
    ensures r.Some? ==> Built(r.value.0, r.value.1, footer, CreateHeader(entries), frags, size)
  {
    hide *;
    var first := FirstSector(entries);
    var allocation := CreateBat(Addresses(frags), first, entries);
    if allocation.None? {
      TooLongIsUnnamed(Addresses(frags), first);
      return None;
    }
    var Allocation(bat, endOfData, last) := allocation.value;
    PlacesAreWords(bat, Addresses(frags), first);
    var blocks := GenerateBlocks(frags, size, bat, last, first);
    if blocks.None? {
      return None;
    }
    SameEntries(entries);
    var stream := PackFooter(footer)
      + (PackHeader(CreateHeader(entries)) + (PaddedTable(bat, entries) + (blocks.value + PackFooter(footer))));
    BuiltFromParts(stream, footer, CreateHeader(entries), bat, blocks.value, frags, size);
    LengthIsNat(endOfData);
    return Some((stream, SECTOR * endOfData + FOOTER_SIZE));
  }

  lemma TooLongIsUnnamed(a: seq<nat>, first: nat)
    ensures TooLong(a, first) ==> !Named(a, first)
  {
  }

  lemma SameEntries(entries: nat)
    requires entries < U32_LIMIT
    ensures CreateHeader(entries).maxTableEntries == entries
  {
  }

  lemma PlacesAreWords(bat: Table, a: seq<nat>, first: nat)
    requires Places(bat, a, first)
    ensures forall b | 0 <= b < |bat| :: 0 <= bat[b] < U32_LIMIT
  {
    forall b: nat | b < |bat| ensures 0 <= bat[b] < U32_LIMIT {
      if k :| 0 <= k < |a| && BlockOf(a[k]) == b {
        var j := HasLast(a, k);
      }
    }
  }

  lemma FragmentsFit(frags: seq<Fragment>, lbas: seq<nat>, size: nat, diskSize: nat)
    requires Announced(frags, lbas, size, diskSize) && GoodSize(size) && size % SECTOR == 0
    ensures Fragments(frags, size)
    ensures forall i | 0 <= i < |frags| :: BlockOf(frags[i].address) < Entries(diskSize)
  {
    forall i | 0 <= i < |frags| ensures frags[i].address % size == 0 {
      MultipleDivides(lbas[i], size);
    }
  }

  lemma MultipleDivides(q: nat, d: nat)
    requires d > 0
    ensures q * d % d == 0
  {
    var k, r := q * d / d, q * d % d;
    assert q * d == k * d + r;
    assert r == (q - k) * d;
    assert q - k >= 1 ==> (q - k) * d >= d;
    assert k - q >= 1 ==> (k - q) * d >= d;
  }
}
