/** A VHD as a stream: its length, its layout and its bytes. */
module VhdStream {
  import opened Options
  import opened Bytes
  import opened VhdFormat
  import opened VhdLayout

  /** What `stream()` reads from any kind of VHD. */
  datatype Vhd = Vhd(footer: Footer, header: Header, blocks: map<nat, Buffer>, locatorData: seq<Buffer>)

  ghost predicate Wellformed(v: Vhd) {
    && ValidFooter(v.footer) && ValidHeader(v.header) && ValidBlockSize(v.header)
    && FitsDisk(v.header, v.footer) && |v.locatorData| == PARENT_LOCATOR_ENTRIES
    && forall id | id in v.blocks ::
      id < v.header.maxTableEntries && |v.blocks[id]| == SECTOR * FullBlockSectors(v.header)
  }

  // ----- layout ---------------------------------------------------------------------------------------

  /** Sectors of the first `i` parent locators. */
  function Spaces(ls: seq<Locator>, i: nat): nat
    requires i <= |ls|
  {
    if i == 0 then 0 else Spaces(ls, i - 1) + ls[i - 1].platformDataSpace
  }

  function TableSectors(h: Header): (s: nat)
    ensures SECTOR * s == BatSize(h.maxTableEntries) && s >= 1
  {
    SectorsRoundUpNoZero(h.maxTableEntries * 4)
  }

  /** First sector of parent locator `i`; after the last one, first sector of the blocks. */
  function LocatorSector(h: Header, i: nat): nat
    requires i <= |h.locators|
  {
    3 + TableSectors(h) + Spaces(h.locators, i)
  }

  lemma {:induction false} SpacesBound(ls: seq<Locator>, i: nat, j: nat)
    requires i <= j <= |ls| && forall k | 0 <= k < |ls| :: ValidLocator(ls[k])
    ensures Spaces(ls, i) <= Spaces(ls, j) <= Spaces(ls, i) + (j - i) * U32_LIMIT
    ensures i < j ==> Spaces(ls, i) + ls[i].platformDataSpace <= Spaces(ls, j)
  {
    if i < j {
      SpacesBound(ls, i, j - 1);
    }
  }

  function StreamedLocator(h: Header, i: nat): (l: Locator)
    requires i < |h.locators|
    ensures l.platformDataSpace == h.locators[i].platformDataSpace
    ensures l.platformDataLength == h.locators[i].platformDataLength
    ensures l.platformDataOffset == SECTOR * LocatorSector(h, i)
  {
    h.locators[i].(platformDataOffset := SECTOR * LocatorSector(h, i))
  }

  function StreamedHeader(h: Header): (r: Header)
    ensures r.blockSize == h.blockSize && r.maxTableEntries == h.maxTableEntries
    ensures r.tableOffset == FOOTER_SIZE + HEADER_SIZE
    ensures |r.locators| == |h.locators| && forall i | 0 <= i < |h.locators| :: r.locators[i] == StreamedLocator(h, i)
  {
    h.(tableOffset := FOOTER_SIZE + HEADER_SIZE,
       locators := seq(|h.locators|, i requires 0 <= i < |h.locators| => StreamedLocator(h, i)))
  }

  lemma StreamedHeaderValid(h: Header)
    requires ValidHeader(h)
    ensures ValidHeader(StreamedHeader(h))
  {
    forall i | 0 <= i < |h.locators| ensures ValidLocator(StreamedLocator(h, i)) {
      SpacesBound(h.locators, 0, i);
    }
  }

  function FirstBlockSector(h: Header): nat { LocatorSector(h, |h.locators|) }

  /** First sector after the blocks below `i`. */
  function NextSector(v: Vhd, i: nat): (s: nat)
    ensures s >= FirstBlockSector(v.header)
  {
    if i == 0 then FirstBlockSector(v.header)
    else NextSector(v, i - 1) + if i - 1 in v.blocks then FullBlockSectors(v.header) else 0
  }

  lemma {:induction false} NextSectorBound(v: Vhd, i: nat, j: nat)
    requires i <= j
    ensures NextSector(v, i) <= NextSector(v, j)
    ensures i < j && i in v.blocks ==> NextSector(v, i) + FullBlockSectors(v.header) <= NextSector(v, j)
  {
    if i < j {
      NextSectorBound(v, i, j - 1);
    }
  }

  function Address(v: Vhd, i: nat): int { if i in v.blocks then NextSector(v, i) else BLOCK_UNUSED }

  /** Every block has an address that a table entry can hold. */
  ghost predicate Addressable(v: Vhd) { forall i | i in v.blocks :: NextSector(v, i) < BLOCK_UNUSED }

  function TableOf(v: Vhd): (t: Table)
    ensures |t| == v.header.maxTableEntries && forall i | 0 <= i < |t| :: t[i] == Address(v, i)
  {
    seq(v.header.maxTableEntries, i requires 0 <= i => Address(v, i))
  }

  // ----- bytes ----------------------------------------------------------------------------------------

  /** The data, padded or cut to `n` bytes. */
  function Aligned(data: Buffer, n: nat): (b: Buffer)
    ensures |b| == n && (|data| <= n ==> b[..|data|] == data)
  {
    if |data| <= n then data + Zeros(n - |data|) else data[..n]
  }

  function LocatorBytes(v: Vhd, i: nat): (b: Buffer)
    requires i <= |v.header.locators| <= |v.locatorData|
    ensures |b| == SECTOR * Spaces(v.header.locators, i)
  {
    if i == 0 then []
    else LocatorBytes(v, i - 1) + Aligned(v.locatorData[i - 1], SECTOR * v.header.locators[i - 1].platformDataSpace)
  }

  function BlockBytes(v: Vhd, i: nat): (b: Buffer)
    requires forall id | id in v.blocks :: |v.blocks[id]| == SECTOR * FullBlockSectors(v.header)
    ensures |b| == SECTOR * (NextSector(v, i) - FirstBlockSector(v.header))
  {
    if i == 0 then []
    else if i - 1 in v.blocks then BlockBytes(v, i - 1) + v.blocks[i - 1]
    else BlockBytes(v, i - 1)
  }

  /** What precedes the blocks; `tail` is the end of the table's last sector, which is not initialised. */
  ghost function Head(v: Vhd, tail: Buffer): (b: Buffer)
    requires Wellformed(v) && Addressable(v)
    requires |tail| == BatSize(v.header.maxTableEntries) - 4 * v.header.maxTableEntries
    ensures |b| == SECTOR * FirstBlockSector(v.header)
  {
    StreamedHeaderValid(v.header);
    PackFooter(v.footer) + PackHeader(StreamedHeader(v.header)) + (PackTable(TableOf(v)) + tail)
    + LocatorBytes(v, |v.header.locators|)
  }

  ghost function StreamOf(v: Vhd, tail: Buffer): (b: Buffer)
    requires Wellformed(v) && Addressable(v)
    requires |tail| == BatSize(v.header.maxTableEntries) - 4 * v.header.maxTableEntries
    ensures |b| == SECTOR * NextSector(v, v.header.maxTableEntries) + FOOTER_SIZE
  {
    Head(v, tail) + BlockBytes(v, v.header.maxTableEntries) + PackFooter(v.footer)
  }

  // ----- writing ----------------------------------------------------------------------------------------

  method StreamSize(v: Vhd) returns (fileSize: nat)
    requires |v.header.locators| == PARENT_LOCATOR_ENTRIES
    ensures fileSize == SECTOR * NextSector(v, v.header.maxTableEntries) + FOOTER_SIZE
  {
    fileSize := FOOTER_SIZE + HEADER_SIZE + BatSize(v.header.maxTableEntries) + FOOTER_SIZE;
    for i := 0 to PARENT_LOCATOR_ENTRIES
      invariant fileSize == SECTOR * LocatorSector(v.header, i) + FOOTER_SIZE
    {
      fileSize := fileSize + v.header.locators[i].platformDataSpace * SECTOR;
    }
    for i := 0 to v.header.maxTableEntries
      invariant fileSize == SECTOR * NextSector(v, i) + FOOTER_SIZE
    {
      if i in v.blocks {
        fileSize := fileSize + SECTOR * FullBlockSectors(v.header);
      }
    }
  }

  /** Where the parent locators go, and where the blocks start. */
  method PlaceLocators(h: Header) returns (header: Header, offset: nat)
    requires ValidHeader(h)
    ensures header == StreamedHeader(h) && offset == SECTOR * FirstBlockSector(h)
  {
    var locators := h.locators;
    offset := FOOTER_SIZE + HEADER_SIZE + BatSize(h.maxTableEntries);
    for i := 0 to PARENT_LOCATOR_ENTRIES
      invariant |locators| == |h.locators| && offset == SECTOR * LocatorSector(h, i)
      invariant forall j | 0 <= j < i :: locators[j] == StreamedLocator(h, j)
      invariant forall j | i <= j < |locators| :: locators[j] == h.locators[j]
    {
      locators := locators[i := locators[i].(platformDataOffset := offset)];
      offset := offset + locators[i].platformDataSpace * SECTOR;
    }
    header := h.(tableOffset := FOOTER_SIZE + HEADER_SIZE, locators := locators);
    assert locators == StreamedHeader(h).locators;
  }

  /** The table of the stream and the length of the file; None when an address does not fit its entry. */
  method PlaceBlocks(v: Vhd, offset: nat) returns (r: Option<(Table, nat)>)
    requires offset == SECTOR * FirstBlockSector(v.header)
    ensures r.Some?
      ==> r.value.0 == TableOf(v) && r.value.1 == SECTOR * NextSector(v, v.header.maxTableEntries) + FOOTER_SIZE
    ensures r.Some? ==> forall i | 0 <= i < v.header.maxTableEntries :: 0 <= Address(v, i) < U32_LIMIT
    ensures r.None? ==> exists i | 0 <= i < v.header.maxTableEntries :: Address(v, i) >= U32_LIMIT
  {
    var bat: Table := [];
    var offsetSector := offset / SECTOR;
    var fileSize := offsetSector * SECTOR + FOOTER_SIZE;
    for i := 0 to v.header.maxTableEntries
      invariant offsetSector == NextSector(v, i) && fileSize == SECTOR * NextSector(v, i) + FOOTER_SIZE
      invariant |bat| == i && forall j | 0 <= j < i :: bat[j] == Address(v, j) < U32_LIMIT
    {
      if i in v.blocks {
        if offsetSector >= U32_LIMIT {
          assert Address(v, i) >= U32_LIMIT;
          return None;
        }
        bat := bat + [offsetSector];
        offsetSector := offsetSector + FullBlockSectors(v.header);
        fileSize := fileSize + SECTOR * FullBlockSectors(v.header);
      } else {
        bat := bat + [BLOCK_UNUSED];
      }
    }
    assert bat == TableOf(v);
    r := Some((bat, fileSize));
  }

  method YieldLocators(v: Vhd, header: Header) returns (out: Buffer)
    requires Wellformed(v) && header == StreamedHeader(v.header)
    ensures out == LocatorBytes(v, |v.header.locators|)
  {
    out := [];
    for i := 0 to PARENT_LOCATOR_ENTRIES
      invariant out == LocatorBytes(v, i)
    {
      var space := header.locators[i].platformDataSpace * SECTOR;
      if space > 0 {
        out := out + Aligned(v.locatorData[i], space);
      } else {
        assert out + Aligned(v.locatorData[i], 0) == out;
      }
    }
  }

  /** Some block below `i` has an address that reads as unused. */
  ghost predicate Skipped(v: Vhd, i: nat) { exists j | 0 <= j < i :: j in v.blocks && NextSector(v, j) >= BLOCK_UNUSED }

  /** The blocks, by the computed table; those whose address reads as unused are left out. */
  method YieldBlocks(v: Vhd, bat: Table) returns (out: Buffer)
    requires Wellformed(v) && bat == TableOf(v) && forall i | 0 <= i < |bat| :: bat[i] < U32_LIMIT
    ensures !Skipped(v, v.header.maxTableEntries) ==> out == BlockBytes(v, v.header.maxTableEntries)
    ensures Skipped(v, v.header.maxTableEntries)
      ==> |out| < SECTOR * (NextSector(v, v.header.maxTableEntries) - FirstBlockSector(v.header))
  {
    out := [];
    for i := 0 to v.header.maxTableEntries
      invariant !Skipped(v, i) ==> out == BlockBytes(v, i)
      invariant Skipped(v, i) ==> |out| < SECTOR * (NextSector(v, i) - FirstBlockSector(v.header))
    {
      SkippedNext(v, i);
      hide Skipped, Wellformed;
      if bat[i] != BLOCK_UNUSED {
        out := out + v.blocks[i];
      }
    }
  }

  lemma SkippedNext(v: Vhd, i: nat)
    ensures Skipped(v, i + 1) <==> Skipped(v, i) || (i in v.blocks && NextSector(v, i) >= BLOCK_UNUSED)
  {
  }

  /** The whole stream, or None when it fails. `tail` is memory that `allocUnsafe` leaves as it was. */
  method Stream(v: Vhd, tail: Buffer) returns (r: Option<Buffer>)
    requires Wellformed(v) && |tail| == BatSize(v.header.maxTableEntries) - 4 * v.header.maxTableEntries
    ensures r.Some? <==> Addressable(v)
    ensures r.Some? ==> r.value == StreamOf(v, tail)
  {
    var header, offset := PlaceLocators(v.header);
    StreamedHeaderValid(v.header);
    var placed := PlaceBlocks(v, offset);
    if placed.None? {
      return None;
    }
    var (bat, fileSize) := placed.value;
    var locators := YieldLocators(v, header);
    var blocks := YieldBlocks(v, bat);
    var out := PackFooter(v.footer) + PackHeader(header) + (PackTable(bat) + tail) + locators + blocks
      + PackFooter(v.footer);
    assert Skipped(v, v.header.maxTableEntries) <==> !Addressable(v);
    hide Skipped, Addressable, PackFooter, PackHeader, PackTable, StreamedHeader, BatSize;
    if |out| != fileSize {
      return None;
    }
    return Some(out);
  }
}
