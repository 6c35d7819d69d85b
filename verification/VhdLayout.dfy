/**
 * Where everything lies in a VHD file: sizes computed from the header, the block allocation
 * table (BAT), and what it means for a file to hold a given map from block ids to contents
 * ("Virtual Hard Disk Image Format Specification", section "Block Allocation Table and Data Blocks").
 */
module VhdLayout {
  import opened Bytes
  import opened VhdFormat

  /** BAT entries, as 32-bit words. */
  type Table = seq<int>

  // ----- sizes ----------------------------------------------------------------------

  function SectorsRoundUpNoZero(bytes: nat): (s: nat)
    ensures s >= 1
  {
    if bytes == 0 then 1 else CeilDiv(bytes, SECTOR)
  }

  function BatSize(entries: nat): (size: nat)
    ensures size >= 4 * entries && size >= SECTOR && size % SECTOR == 0
    ensures size < 4 * entries + SECTOR || entries == 0
  {
    SECTOR * SectorsRoundUpNoZero(entries * 4)
  }

  function SectorsPerBlock(blockSize: nat): nat { blockSize / SECTOR }

  /** One bit per sector, rounded up to whole sectors. */
  function SectorsOfBitmap(blockSize: nat): (s: nat)
    ensures s >= 1
  {
    SectorsRoundUpNoZero(SectorsPerBlock(blockSize) / 8)
  }

  /** One sector of bitmap for each 2 MiB of a block, and one for a smaller block. */
  lemma BitmapSectors(blockSize: nat)
    requires blockSize >= 512 && IsPowerOfTwo(blockSize)
    ensures SectorsOfBitmap(blockSize) == if blockSize <= 0x20_0000 then 1 else blockSize / 0x20_0000
  {
    if blockSize > 0x20_0000 {
      assert IsPowerOfTwo(32) && IsPowerOfTwo(512);
      assert IsPowerOfTwo(0x2000);
      assert IsPowerOfTwo(0x2_0000);
      assert IsPowerOfTwo(0x20_0000);
      var q := PowerDividesPower(blockSize, 0x20_0000);
      assert SectorsPerBlock(blockSize) / 8 == 512 * q;
    }
  }

  function FullBlockSectors(h: Header): (s: nat)
    ensures s >= 1
    ensures ValidBlockSize(h) ==> s >= 2
  {
    SectorsPerBlock(h.blockSize) + SectorsOfBitmap(h.blockSize)
  }

  /** Blocks are made of whole sectors. */
  predicate ValidBlockSize(h: Header) { h.blockSize >= SECTOR && h.blockSize % SECTOR == 0 }

  function LocatorEnd(l: Locator): nat {
    if l.platformCode == PLATFORM_NONE then 0 else l.platformDataOffset + SECTOR * l.platformDataSpace
  }

  function LocatorsEnd(ls: seq<Locator>): nat {
    if ls == [] then 0 else Max(LocatorsEnd(ls[..|ls| - 1]), LocatorEnd(ls[|ls| - 1]))
  }

  /** First byte after the metadata. */
  function EndOfHeaders(h: Header): nat {
    Max(Max(FOOTER_SIZE + HEADER_SIZE, h.tableOffset + BatSize(h.maxTableEntries)), LocatorsEnd(h.locators))
  }

  lemma {:induction false} LocatorsEndBound(ls: seq<Locator>, i: nat)
    requires i < |ls|
    ensures LocatorEnd(ls[i]) <= LocatorsEnd(ls)
  {
    if i < |ls| - 1 {
      LocatorsEndBound(ls[..|ls| - 1], i);
    }
  }

  lemma {:induction false} LocatorsEndLeast(ls: seq<Locator>, e: nat)
    ensures LocatorsEnd(ls) <= e <==> forall i | 0 <= i < |ls| && ls[i].platformCode != 0 ::
      ls[i].platformDataOffset + 512 * ls[i].platformDataSpace <= e
  {
    if ls != [] {
      LocatorsEndLeast(ls[..|ls| - 1], e);
    }
  }

  /** The metadata ends where the headers, the table in whole sectors and the used parent locators have ended. */
  lemma MetadataEnds(h: Header, e: nat)
    ensures BatSize(h.maxTableEntries)
      == if h.maxTableEntries == 0 then 512 else (4 * h.maxTableEntries + 511) / 512 * 512
    ensures EndOfHeaders(h) <= e <==>
      && 1536 <= e && h.tableOffset + BatSize(h.maxTableEntries) <= e
      && forall i | 0 <= i < |h.locators| && h.locators[i].platformCode != 0 ::
           h.locators[i].platformDataOffset + 512 * h.locators[i].platformDataSpace <= e
  {
    LocatorsEndLeast(h.locators, e);
  }

  // ----- layout -----------------------------------------------------------------------

  predicate Used(bat: Table, id: nat) { id < |bat| && bat[id] != BLOCK_UNUSED }

  /** Two blocks of `s` sectors starting at sectors `a` and `b` do not overlap. */
  predicate Apart(a: int, b: int, s: int) { a + s <= b || b + s <= a }

  ghost predicate Layout(h: Header, bat: Table) {
    && ValidHeader(h) && ValidBlockSize(h)
    && FOOTER_SIZE + HEADER_SIZE <= h.tableOffset
    && h.maxTableEntries <= |bat| && 4 * |bat| <= BatSize(h.maxTableEntries)
    && (forall i | 0 <= i < |bat| :: 0 <= bat[i] < U32_LIMIT)
    && (forall i | h.maxTableEntries <= i < |bat| :: bat[i] == BLOCK_UNUSED)
    && (forall i: nat | Used(bat, i) :: EndOfHeaders(h) <= SECTOR * bat[i])
    && (forall i: nat, j: nat | Used(bat, i) && Used(bat, j) && i != j :: Apart(bat[i], bat[j], FullBlockSectors(h)))
  }

  /** First sector after the headers and the blocks listed in the first `n` entries. */
  function EndSector(h: Header, bat: Table, n: nat): (end: nat)
    requires n <= |bat| && forall i | 0 <= i < |bat| :: 0 <= bat[i]
  {
    if n == 0 then CeilDiv(EndOfHeaders(h), SECTOR)
    else if bat[n - 1] == BLOCK_UNUSED then EndSector(h, bat, n - 1)
    else Max(EndSector(h, bat, n - 1), bat[n - 1] + FullBlockSectors(h))
  }

  lemma {:induction false} EndSectorBound(h: Header, bat: Table, n: nat)
    requires n <= |bat| && forall i | 0 <= i < |bat| :: 0 <= bat[i]
    ensures EndOfHeaders(h) <= SECTOR * EndSector(h, bat, n)
    ensures forall i: nat | i < n && Used(bat, i) :: bat[i] + FullBlockSectors(h) <= EndSector(h, bat, n)
  {
    if n > 0 {
      EndSectorBound(h, bat, n - 1);
    }
  }

  /** It is the least such sector: a used block takes the sectors of its bitmap and of its data. */
  lemma {:induction false} EndSectorLeast(h: Header, bat: Table, n: nat, e: nat)
    requires n <= |bat| && forall i | 0 <= i < |bat| :: 0 <= bat[i]
    ensures EndSector(h, bat, n) <= e <==>
      && EndOfHeaders(h) <= 512 * e
      && forall i | 0 <= i < n && bat[i] != 0xFFFF_FFFF ::
           bat[i] + SectorsOfBitmap(h.blockSize) + h.blockSize / 512 <= e
  {
    if n > 0 {
      EndSectorLeast(h, bat, n - 1, e);
    }
  }

  lemma EndIsFree(h: Header, bat: Table)
    requires Layout(h, bat)
    ensures EndOfHeaders(h) <= SECTOR * EndSector(h, bat, h.maxTableEntries)
    ensures forall j: nat | Used(bat, j) :: Apart(bat[j], EndSector(h, bat, h.maxTableEntries), FullBlockSectors(h))
  {
    EndSectorBound(h, bat, h.maxTableEntries);
  }

  // ----- contents ---------------------------------------------------------------------

  function Entry(file: Buffer, tableOffset: nat, i: nat): (e: int)
    requires tableOffset + 4 * i + 4 <= |file|
    ensures 0 <= e < U32_LIMIT
  {
    FromU32(file[tableOffset + 4 * i..tableOffset + 4 * i + 4])
  }

  /** The first `n` entries of `bat` are on disk. */
  ghost predicate Synced(file: Buffer, tableOffset: nat, bat: Table, n: nat) {
    && n <= |bat| && tableOffset + 4 * n <= |file|
    && forall i | 0 <= i < n :: Entry(file, tableOffset, i) == bat[i]
  }

  ghost predicate Holds(file: Buffer, h: Header, bat: Table, id: nat, data: Buffer) {
    Used(bat, id) && 0 <= bat[id] && |data| == SECTOR * FullBlockSectors(h) && At(file, SECTOR * bat[id], data)
  }

  /**
   * The file holds exactly `blocks`, found through `bat`, of which the first `n` entries are on
   * disk. `pending` names blocks that may have an address but no meaningful data yet.
   */
  ghost predicate Image(file: Buffer, h: Header, bat: Table, n: nat, blocks: map<nat, Buffer>, pending: set<nat>) {
    && Layout(h, bat) && Synced(file, h.tableOffset, bat, n)
    && At(file, FOOTER_SIZE, PackHeader(h))
    && (forall id | id in blocks :: Holds(file, h, bat, id, blocks[id]))
    && (forall id: nat | Used(bat, id) :: id in blocks || id in pending)
    && (forall id | id in pending :: id !in blocks)
  }

  lemma ImageBasics(file: Buffer, h: Header, bat: Table, n: nat, blocks: map<nat, Buffer>, pending: set<nat>)
    requires Image(file, h, bat, n, blocks, pending)
    ensures FOOTER_SIZE + HEADER_SIZE <= |file| && Layout(h, bat) && ValidHeader(h)
    ensures h.maxTableEntries <= |bat| && forall i | 0 <= i < |bat| :: 0 <= bat[i] < U32_LIMIT
  {
  }

  lemma BlockInFile(file: Buffer, h: Header, bat: Table, n: nat, blocks: map<nat, Buffer>, id: nat, sector: int)
    requires Image(file, h, bat, n, blocks, {}) && Used(bat, id) && bat[id] + FullBlockSectors(h) <= sector
    ensures id in blocks && blocks[id] != [] && 0 <= bat[id] && EndOfHeaders(h) <= SECTOR * sector
    ensures var size := SECTOR * FullBlockSectors(h);
      SECTOR * bat[id] + size <= |file| && file[SECTOR * bat[id]..SECTOR * bat[id] + size] == blocks[id]
  {
    assert Holds(file, h, bat, id, blocks[id]);
  }

  /** The table as a reader finds it on disk. */
  function DiskTable(file: Buffer, tableOffset: nat, n: nat): (bat: Table)
    requires tableOffset + 4 * n <= |file|
    ensures |bat| == n && forall i | 0 <= i < n :: bat[i] == Entry(file, tableOffset, i)
  {
    seq(n, i requires 0 <= i < n => Entry(file, tableOffset, i))
  }

  /** What the file alone says, whatever any process holds in memory. */
  ghost predicate DiskImage(file: Buffer, h: Header, blocks: map<nat, Buffer>, pending: set<nat>) {
    && h.tableOffset + 4 * h.maxTableEntries <= |file|
    && Image(file, h, DiskTable(file, h.tableOffset, h.maxTableEntries), h.maxTableEntries, blocks, pending)
  }

  lemma ImageOnDisk(file: Buffer, h: Header, bat: Table, blocks: map<nat, Buffer>, pending: set<nat>)
    requires Image(file, h, bat, h.maxTableEntries, blocks, pending)
    ensures DiskImage(file, h, blocks, pending)
  {
    var disk := DiskTable(file, h.tableOffset, h.maxTableEntries);
    assert disk == bat[..h.maxTableEntries];
    forall i: nat ensures Used(disk, i) == Used(bat, i) {
    }
  }

  /** The first sector, which holds the first copy of the footer, is the same in both. */
  ghost predicate SameStart(a: Buffer, b: Buffer) {
    FOOTER_SIZE <= |a| && FOOTER_SIZE <= |b| && a[..FOOTER_SIZE] == b[..FOOTER_SIZE]
  }

  /** Between the first sector and `end`, `b` keeps everything of `a`. */
  ghost predicate SameData(a: Buffer, b: Buffer, end: int) {
    |a| <= |b| && forall k | FOOTER_SIZE <= k < |a| && k < end :: b[k] == a[k]
  }

  lemma SameStartSelf(a: Buffer)
    ensures FOOTER_SIZE <= |a| ==> SameStart(a, a)
  {
  }

  lemma SameStartBoth(a: Buffer, b: Buffer, c: Buffer)
    requires SameStart(a, b) && SameStart(b, c)
    ensures SameStart(a, c)
  {
  }

  // ----- what writes do to an image -----------------------------------------------------

  /** A write outside the metadata and outside every block with contents keeps the image. */
  lemma WriteElsewhere(file: Buffer, after: Buffer, at: nat, data: Buffer,
                       h: Header, bat: Table, n: nat, blocks: map<nat, Buffer>, pending: set<nat>)
    requires Image(file, h, bat, n, blocks, pending) && Patched(file, after, at, data)
    requires h.tableOffset + 4 * n <= at
    requires forall id | id in blocks :: SECTOR * bat[id] + |blocks[id]| <= at || at + |data| <= SECTOR * bat[id]
    ensures Image(after, h, bat, n, blocks, pending)
    ensures SameStart(file, after)
  {
    PatchedKeeps(file, after, at, data, FOOTER_SIZE, PackHeader(h));
    forall id | id in blocks ensures Holds(after, h, bat, id, blocks[id]) {
      assert Holds(file, h, bat, id, blocks[id]);
      PatchedKeeps(file, after, at, data, SECTOR * bat[id], blocks[id]);
    }
    SyncedKept(file, after, at, data, h.tableOffset, bat, n);
  }

  lemma SyncedKept(file: Buffer, after: Buffer, at: nat, data: Buffer, tableOffset: nat, bat: Table, n: nat)
    requires Synced(file, tableOffset, bat, n) && Patched(file, after, at, data)
    requires tableOffset + 4 * n <= at || at + |data| <= tableOffset
    ensures Synced(after, tableOffset, bat, n)
  {
    forall i | 0 <= i < n ensures Entry(after, tableOffset, i) == bat[i] {
      var p := tableOffset + 4 * i;
      assert after[p..p + 4] == file[p..p + 4];
    }
  }

  /** Writing one entry. */
  lemma SyncedEntry(file: Buffer, after: Buffer, tableOffset: nat, bat: Table, n: nat, id: nat, sector: int)
    requires Synced(file, tableOffset, bat, n) && id < |bat| && 0 <= sector < U32_LIMIT
    requires Patched(file, after, tableOffset + 4 * id, U32(sector))
    ensures Synced(after, tableOffset, bat[id := sector], n)
  {
    forall i | 0 <= i < n ensures Entry(after, tableOffset, i) == bat[id := sector][i] {
      var p := tableOffset + 4 * i;
      if i == id {
        assert after[p..p + 4] == U32(sector);
        U32RoundTrip(sector);
      } else {
        assert after[p..p + 4] == file[p..p + 4];
      }
    }
  }

  /** A write inside block `id` disturbs nothing else. */
  lemma WriteInBlock(file: Buffer, after: Buffer, at: nat, data: Buffer,
                     h: Header, bat: Table, n: nat, id: nat, blocks: map<nat, Buffer>, pending: set<nat>)
    requires Image(file, h, bat, n, blocks, pending) && Patched(file, after, at, data)
    requires Used(bat, id) && n <= h.maxTableEntries
    requires SECTOR * bat[id] <= at && at + |data| <= SECTOR * (bat[id] + FullBlockSectors(h))
    ensures Image(after, h, bat, n, blocks - {id}, pending + {id})
    ensures SameStart(file, after)
  {
    var rest := blocks - {id};
    forall j | j in rest
      ensures SECTOR * bat[j] + |rest[j]| <= at || at + |data| <= SECTOR * bat[j]
    {
      assert Holds(file, h, bat, j, blocks[j]);
      assert Apart(bat[j], bat[id], FullBlockSectors(h));
    }
    Forget(file, h, bat, n, id, blocks, pending);
    WriteElsewhere(file, after, at, data, h, bat, n, rest, pending + {id});
  }

  /** Writing the whole block of `id` at its address. */
  lemma WriteBlockData(file: Buffer, after: Buffer, data: Buffer,
                       h: Header, bat: Table, n: nat, id: nat, blocks: map<nat, Buffer>, pending: set<nat>)
    requires Image(file, h, bat, n, blocks, pending)
    requires Used(bat, id) && 0 <= bat[id] && |data| == SECTOR * FullBlockSectors(h)
    requires Patched(file, after, SECTOR * bat[id], data)
    requires n <= h.maxTableEntries
    ensures Image(after, h, bat, n, blocks[id := data], pending - {id})
    ensures SameStart(file, after)
  {
    WriteInBlock(file, after, SECTOR * bat[id], data, h, bat, n, id, blocks, pending);
    PatchedAt(file, after, SECTOR * bat[id], data);
    assert pending + {id} - {id} == pending - {id} && (blocks - {id})[id := data] == blocks[id := data];
    Learn(after, h, bat, n, id, data, blocks - {id}, pending + {id});
  }

  /** One may always know less about a block. */
  lemma Forget(file: Buffer, h: Header, bat: Table, n: nat, id: nat, blocks: map<nat, Buffer>, pending: set<nat>)
    requires Image(file, h, bat, n, blocks, pending)
    ensures Image(file, h, bat, n, blocks - {id}, pending + {id})
  {
    forall j | j in blocks - {id} ensures Holds(file, h, bat, j, (blocks - {id})[j]) {
      assert Holds(file, h, bat, j, blocks[j]);
    }
  }

  lemma LayoutAssign(h: Header, bat: Table, id: nat, sector: int)
    requires Layout(h, bat) && id < h.maxTableEntries
    requires 0 <= sector < BLOCK_UNUSED && EndOfHeaders(h) <= SECTOR * sector
    requires forall j: nat | Used(bat, j) && j != id :: Apart(bat[j], sector, FullBlockSectors(h))
    ensures Layout(h, bat[id := sector])
    ensures forall j: nat | j != id :: Used(bat[id := sector], j) == Used(bat, j)
  {
    var bat' := bat[id := sector];
    assert forall j: nat | j != id :: Used(bat', j) == Used(bat, j);
    forall i: nat, j: nat | Used(bat', i) && Used(bat', j) && i != j
      ensures Apart(bat'[i], bat'[j], FullBlockSectors(h))
    {
      if i == id {
        assert Used(bat, j);
      } else if j == id {
        assert Used(bat, i);
      }
    }
  }

  /** Giving `id` an address that is apart from every other block. */
  lemma AssignAddress(file: Buffer, after: Buffer, h: Header, bat: Table, n: nat, id: nat, sector: int,
                      blocks: map<nat, Buffer>, pending: set<nat>)
    requires Image(file, h, bat, n, blocks, pending)
    requires id < h.maxTableEntries && n <= h.maxTableEntries
    requires 0 <= sector < BLOCK_UNUSED && EndOfHeaders(h) <= SECTOR * sector
    requires forall j: nat | Used(bat, j) && j != id :: Apart(bat[j], sector, FullBlockSectors(h))
    requires Patched(file, after, h.tableOffset + 4 * id, U32(sector))
    ensures Image(after, h, bat[id := sector], n, blocks - {id}, pending + {id})
    ensures SameStart(file, after)
  {
    var bat', at := bat[id := sector], h.tableOffset + 4 * id;
    LayoutAssign(h, bat, id, sector);
    PatchedKeeps(file, after, at, U32(sector), FOOTER_SIZE, PackHeader(h));
    SyncedEntry(file, after, h.tableOffset, bat, n, id, sector);
    forall j | j in blocks - {id} ensures Holds(after, h, bat', j, (blocks - {id})[j]) {
      assert Holds(file, h, bat, j, blocks[j]);
      assert at + 4 <= EndOfHeaders(h) <= SECTOR * bat[j];
      PatchedKeeps(file, after, at, U32(sector), SECTOR * bat[j], blocks[j]);
    }
  }

  /** A write after all data keeps the image. */
  lemma WriteAfterData(file: Buffer, after: Buffer, at: nat, data: Buffer,
                       h: Header, bat: Table, n: nat, blocks: map<nat, Buffer>, pending: set<nat>)
    requires Image(file, h, bat, n, blocks, pending) && Patched(file, after, at, data)
    requires n <= h.maxTableEntries && SECTOR * EndSector(h, bat, h.maxTableEntries) <= at
    ensures Image(after, h, bat, n, blocks, pending)
    ensures SameStart(file, after)
  {
    EndSectorBound(h, bat, h.maxTableEntries);
    forall id | id in blocks ensures SECTOR * bat[id] + |blocks[id]| <= at {
      assert Holds(file, h, bat, id, blocks[id]);
    }
    WriteElsewhere(file, after, at, data, h, bat, n, blocks, pending);
  }

  /** The first sector belongs to the footer alone. */
  lemma WriteFirstSector(file: Buffer, after: Buffer, data: Buffer,
                         h: Header, bat: Table, n: nat, blocks: map<nat, Buffer>, pending: set<nat>)
    requires Image(file, h, bat, n, blocks, pending) && Patched(file, after, 0, data) && |data| == FOOTER_SIZE
    ensures Image(after, h, bat, n, blocks, pending) && |after| == |file|
  {
    PatchedKeeps(file, after, 0, data, FOOTER_SIZE, PackHeader(h));
    forall id | id in blocks ensures Holds(after, h, bat, id, blocks[id]) {
      assert Holds(file, h, bat, id, blocks[id]);
      PatchedKeeps(file, after, 0, data, SECTOR * bat[id], blocks[id]);
    }
    SyncedKept(file, after, 0, data, h.tableOffset, bat, n);
  }

  // ----- the table as bytes -------------------------------------------------------------

  function PackTable(bat: Table): (b: Buffer)
    requires forall i | 0 <= i < |bat| :: 0 <= bat[i] < U32_LIMIT
    ensures |b| == 4 * |bat|
  {
    if bat == [] then [] else PackTable(bat[..|bat| - 1]) + U32(bat[|bat| - 1])
  }

  lemma {:induction false} PackTableEntry(bat: Table, i: nat)
    requires i < |bat| && forall i | 0 <= i < |bat| :: 0 <= bat[i] < U32_LIMIT
    ensures PackTable(bat)[4 * i..4 * i + 4] == U32(bat[i])
  {
    var front := PackTable(bat[..|bat| - 1]);
    if i < |bat| - 1 {
      PackTableEntry(bat[..|bat| - 1], i);
      assert PackTable(bat)[4 * i..4 * i + 4] == front[4 * i..4 * i + 4];
    } else {
      assert PackTable(bat)[4 * i..4 * i + 4] == U32(bat[i]);
    }
  }

  /** Writing the whole table brings every entry to disk and touches nothing else. */
  lemma WriteTable(file: Buffer, after: Buffer, h: Header, bat: Table, n: nat,
                   blocks: map<nat, Buffer>, pending: set<nat>)
    requires Image(file, h, bat, n, blocks, pending)
    requires Patched(file, after, h.tableOffset, PackTable(bat))
    ensures Image(after, h, bat, h.maxTableEntries, blocks, pending)
    ensures SameStart(file, after)
  {
    var data := PackTable(bat);
    PatchedKeeps(file, after, h.tableOffset, data, FOOTER_SIZE, PackHeader(h));
    forall id | id in blocks ensures Holds(after, h, bat, id, blocks[id]) {
      assert Holds(file, h, bat, id, blocks[id]);
      PatchedKeeps(file, after, h.tableOffset, data, SECTOR * bat[id], blocks[id]);
    }
    EntriesWritten(file, after, h.tableOffset, bat, h.maxTableEntries);
  }

  lemma EntriesWritten(file: Buffer, after: Buffer, tableOffset: nat, bat: Table, n: nat)
    requires n <= |bat| && tableOffset <= |file| && forall i | 0 <= i < |bat| :: 0 <= bat[i] < U32_LIMIT
    requires Patched(file, after, tableOffset, PackTable(bat))
    ensures Synced(after, tableOffset, bat, n)
  {
    hide PackTable, Entry;
    forall i | 0 <= i < n ensures Entry(after, tableOffset, i) == bat[i] {
      EntryWritten(file, after, tableOffset, bat, i);
    }
  }

  lemma EntryWritten(file: Buffer, after: Buffer, tableOffset: nat, bat: Table, i: nat)
    requires i < |bat| && forall j | 0 <= j < |bat| :: 0 <= bat[j] < U32_LIMIT
    requires Patched(file, after, tableOffset, PackTable(bat))
    ensures Entry(after, tableOffset, i) == bat[i]
  {
    PackTableEntry(bat, i);
    WordWritten(file, after, tableOffset, PackTable(bat), i);
    U32RoundTrip(bat[i]);
  }

  lemma WordWritten(file: Buffer, after: Buffer, at: nat, data: Buffer, i: nat)
    requires Patched(file, after, at, data) && 4 * i + 4 <= |data|
    ensures at + 4 * i + 4 <= |after| && after[at + 4 * i..at + 4 * i + 4] == data[4 * i..4 * i + 4]
  {
  }

  // ----- moving a block, growing the table ------------------------------------------------

  /** The data of `id` is known to stand at its address. */
  lemma Learn(file: Buffer, h: Header, bat: Table, n: nat, id: nat, data: Buffer,
              blocks: map<nat, Buffer>, pending: set<nat>)
    requires Image(file, h, bat, n, blocks, pending) && Holds(file, h, bat, id, data)
    ensures Image(file, h, bat, n, blocks[id := data], pending - {id})
  {
    var more := blocks[id := data];
    forall j | j in more ensures Holds(file, h, bat, j, more[j]) {
      assert j != id ==> Holds(file, h, bat, j, blocks[j]);
    }
  }

  /** Switching the entry of a block to a copy beyond all others changes no content. */
  lemma SwitchAddress(file: Buffer, after: Buffer, h: Header, bat: Table, n: nat,
                      id: nat, sector: int, blocks: map<nat, Buffer>)
    requires Image(file, h, bat, n, blocks, {}) && n <= h.maxTableEntries
    requires id in blocks && 0 <= sector < BLOCK_UNUSED && At(file, SECTOR * sector, blocks[id])
    requires forall j: nat | Used(bat, j) :: bat[j] + FullBlockSectors(h) <= sector
    requires Patched(file, after, h.tableOffset + 4 * id, U32(sector))
    ensures Image(after, h, bat[id := sector], n, blocks, {})
    ensures SameStart(file, after)
  {
    hide Image, Patched;
    CopyKept(file, after, h, bat, n, id, sector, blocks);
    var none: set<nat> := {};
    AssignAddress(file, after, h, bat, n, id, sector, blocks, none);
    assert none + {id} == {id};
    Learn(after, h, bat[id := sector], n, id, blocks[id], blocks - {id}, {id});
    assert (blocks - {id})[id := blocks[id]] == blocks && {id} - {id} == {};
  }

  lemma CopyKept(file: Buffer, after: Buffer, h: Header, bat: Table, n: nat, id: nat, sector: int,
                 blocks: map<nat, Buffer>)
    requires Image(file, h, bat, n, blocks, {}) && id in blocks && 0 <= sector < BLOCK_UNUSED
    requires At(file, SECTOR * sector, blocks[id])
    requires forall j: nat | Used(bat, j) :: bat[j] + FullBlockSectors(h) <= sector
    requires Patched(file, after, h.tableOffset + 4 * id, U32(sector))
    ensures id < h.maxTableEntries <= |bat| && EndOfHeaders(h) <= SECTOR * sector
    ensures Holds(after, h, bat[id := sector], id, blocks[id])
  {
    assert Holds(file, h, bat, id, blocks[id]);
    UsedInTable(h, bat, id);
    PatchedKeeps(file, after, h.tableOffset + 4 * id, U32(sector), SECTOR * sector, blocks[id]);
  }

  lemma CopyBeyond(file: Buffer, after: Buffer, h: Header, bat: Table, n: nat, sector: int, data: Buffer,
                   blocks: map<nat, Buffer>)
    requires Image(file, h, bat, n, blocks, {}) && n <= h.maxTableEntries
    requires 0 <= sector && EndOfHeaders(h) <= SECTOR * sector
    requires forall j: nat | Used(bat, j) :: bat[j] + FullBlockSectors(h) <= sector
    requires Patched(file, after, SECTOR * sector, data) && data != []
    ensures Image(after, h, bat, n, blocks, {}) && At(after, SECTOR * sector, data)
    ensures SameStart(file, after)
  {
    forall j | j in blocks ensures SECTOR * bat[j] + |blocks[j]| <= SECTOR * sector {
      assert Holds(file, h, bat, j, blocks[j]);
    }
    WriteElsewhere(file, after, SECTOR * sector, data, h, bat, n, blocks, {});
    PatchedAt(file, after, SECTOR * sector, data);
  }

  /** First byte after the table and `space` more bytes. */
  function TableEnd(h: Header, space: nat): nat { h.tableOffset + BatSize(h.maxTableEntries) + space }

  /** No block starts before the end of the table and `space` more bytes. */
  ghost predicate Clear(h: Header, bat: Table, space: nat) {
    && (forall i: nat | Used(bat, i) :: TableEnd(h, space) <= SECTOR * bat[i])
    && (space < SECTOR * FullBlockSectors(h) ==> forall i: nat | Used(bat, i) :: TableEnd(h, space) < SECTOR * bat[i])
  }

  /** By how much the table grows, in bytes. */
  function Growth(maxTableEntries: nat, entries: nat): (g: nat)
    requires maxTableEntries <= entries
    ensures g == BatSize(entries) - BatSize(maxTableEntries)
  {
    BatSize(entries) - BatSize(maxTableEntries)
  }

  /** Last byte that growing the table to `entries` may write, exclusive. */
  function GrowthEnd(h: Header, tableLength: nat, entries: nat): nat
    requires entries >= h.maxTableEntries
  {
    h.tableOffset + Max(BatSize(entries), 4 * tableLength + entries - h.maxTableEntries)
  }

  /**
   * The table grows by at most one full block, from a sector boundary, and no parent locator stands
   * where it grows.
   */
  ghost predicate CanGrow(h: Header, tableLength: nat, entries: nat) {
    entries <= h.maxTableEntries || (
      && entries < U32_LIMIT && h.tableOffset % SECTOR == 0
      && Growth(h.maxTableEntries, entries) <= SECTOR * FullBlockSectors(h)
      && forall i | 0 <= i < |h.locators| && h.locators[i].platformCode != PLATFORM_NONE ::
        || LocatorEnd(h.locators[i]) <= h.tableOffset
        || GrowthEnd(h, tableLength, entries) <= h.locators[i].platformDataOffset)
  }

  /** How many entries a table of `entries` entries has room for. */
  function TableRoom(entries: nat): (n: nat)
    ensures 4 * n == BatSize(entries) && n >= entries
  {
    SECTOR / 4 * SectorsRoundUpNoZero(entries * 4)
  }

  function GrownTable(bat: Table, maxTableEntries: nat, entries: nat): (t: Table)
    requires maxTableEntries <= |bat| && maxTableEntries <= entries
    ensures 4 * |t| == BatSize(entries)
  {
    bat[..maxTableEntries] + seq(TableRoom(entries) - maxTableEntries, i => BLOCK_UNUSED)
  }

  function Filled(n: nat): (b: Buffer)
    ensures |b| == n
  {
    seq(n, i => 0xFF)
  }

  lemma GrownLayout(h: Header, bat: Table, entries: nat)
    requires Layout(h, bat) && h.maxTableEntries < entries < U32_LIMIT
    requires forall i: nat | Used(bat, i) :: h.tableOffset + BatSize(entries) <= SECTOR * bat[i]
    ensures Layout(h.(maxTableEntries := entries), GrownTable(bat, h.maxTableEntries, entries))
    ensures forall i: nat :: Used(GrownTable(bat, h.maxTableEntries, entries), i) == Used(bat, i)
  {
    var t := GrownTable(bat, h.maxTableEntries, entries);
    forall i: nat ensures Used(t, i) == Used(bat, i) && (Used(bat, i) ==> t[i] == bat[i]) {
    }
  }

  /** Where the growing table is filled there is neither metadata nor data. */
  lemma FillIsFree(h: Header, bat: Table, entries: nat)
    requires Layout(h, bat) && h.maxTableEntries < entries && h.tableOffset % SECTOR == 0
    requires Clear(h, bat, Growth(h.maxTableEntries, entries))
    ensures forall i: nat | Used(bat, i) :: GrowthEnd(h, |bat|, entries) <= SECTOR * bat[i]
  {
    hide Layout, Clear, BatSize, GrowthEnd, FullBlockSectors;
    var space, end, bound := Growth(h.maxTableEntries, entries), TableEnd(h, 0), GrowthEnd(h, |bat|, entries);
    FillBound(h, bat, entries);
    forall i: nat | Used(bat, i) ensures bound <= SECTOR * bat[i] {
      ClearBlock(h, bat, space, i);
      hide *;
      SectorGap(end, bat[i]);
    }
  }

  lemma FillBound(h: Header, bat: Table, entries: nat)
    requires Layout(h, bat) && h.maxTableEntries < entries && h.tableOffset % SECTOR == 0
    ensures var space, end, bound := Growth(h.maxTableEntries, entries), TableEnd(h, 0), GrowthEnd(h, |bat|, entries);
      && end % SECTOR == 0 && space >= 0 && bound < end + space + SECTOR && (space > 0 ==> bound <= end + space)
  {
    hide ValidHeader, ValidBlockSize, EndOfHeaders, FullBlockSectors, Apart;
  }

  lemma ClearBlock(h: Header, bat: Table, space: nat, i: nat)
    requires Layout(h, bat) && Clear(h, bat, space) && Used(bat, i)
    ensures TableEnd(h, 0) + space <= SECTOR * bat[i] && (space == 0 ==> TableEnd(h, 0) < SECTOR * bat[i])
  {
    hide ValidHeader, EndOfHeaders, BatSize, Apart;
    assert FullBlockSectors(h) > 0;
  }

  lemma SectorGap(end: nat, sector: int)
    requires end % SECTOR == 0
    ensures end < SECTOR * sector ==> end + SECTOR <= SECTOR * sector
  {
  }

  /** Filling the new part of the table. */
  lemma FillTable(file: Buffer, filled: Buffer, h: Header, bat: Table, n: nat, entries: nat, blocks: map<nat, Buffer>)
    requires Image(file, h, bat, n, blocks, {}) && n <= h.maxTableEntries < entries
    requires h.tableOffset % SECTOR == 0
    requires Clear(h, bat, Growth(h.maxTableEntries, entries))
    requires Patched(file, filled, h.tableOffset + 4 * |bat|, Filled(entries - h.maxTableEntries))
    ensures Image(filled, h, bat, n, blocks, {}) && SameStart(file, filled)
  {
    FillIsFree(h, bat, entries);
    forall id | id in blocks ensures GrowthEnd(h, |bat|, entries) <= SECTOR * bat[id] {
      assert Holds(file, h, bat, id, blocks[id]);
    }
    WriteElsewhere(file, filled, h.tableOffset + 4 * |bat|, Filled(entries - h.maxTableEntries), h, bat, n, blocks, {});
  }

  /** Announcing the longer table in the header. */
  lemma GrowTable(file: Buffer, after: Buffer, h: Header, bat: Table, n: nat, entries: nat, blocks: map<nat, Buffer>)
    requires Image(file, h, bat, n, blocks, {}) && n <= h.maxTableEntries < entries < U32_LIMIT
    requires Clear(h, bat, Growth(h.maxTableEntries, entries))
    requires ValidHeader(h.(maxTableEntries := entries))
    requires Patched(file, after, FOOTER_SIZE, PackHeader(h.(maxTableEntries := entries)))
    ensures Image(after, h.(maxTableEntries := entries), GrownTable(bat, h.maxTableEntries, entries), n, blocks, {})
    ensures SameStart(file, after)
  {
    var h', t := h.(maxTableEntries := entries), GrownTable(bat, h.maxTableEntries, entries);
    GrownLayout(h, bat, entries);
    PatchedAt(file, after, FOOTER_SIZE, PackHeader(h'));
    SyncedKept(file, after, FOOTER_SIZE, PackHeader(h'), h.tableOffset, bat, n);
    forall id | id in blocks ensures Holds(after, h', t, id, blocks[id]) {
      assert Holds(file, h, bat, id, blocks[id]);
      PatchedKeeps(file, after, FOOTER_SIZE, PackHeader(h'), SECTOR * bat[id], blocks[id]);
    }
  }

  lemma UsedInTable(h: Header, bat: Table, id: nat)
    requires Layout(h, bat) && Used(bat, id)
    ensures id < h.maxTableEntries
  {
  }

  /** Moving the first block past the last one, when it was in the way, clears one full block of space. */
  lemma ClearAfterMove(h: Header, bat: Table, first: nat, lastSector: int, space: nat, sector: int)
    requires Layout(h, bat) && Used(bat, first)
    requires forall i: nat | Used(bat, i) :: bat[first] <= bat[i] <= lastSector
    requires space <= SECTOR * FullBlockSectors(h) && first < h.maxTableEntries
    requires sector == Max(lastSector + FullBlockSectors(h), CeilDiv(TableEnd(h, space), SECTOR))
    ensures TableEnd(h, space) < SECTOR * bat[first] ==> Clear(h, bat, space)
    ensures Clear(h, bat[first := sector], space)
  {
    var moved := bat[first := sector];
    forall i: nat | Used(moved, i)
      ensures TableEnd(h, space) <= SECTOR * moved[i]
      ensures space < SECTOR * FullBlockSectors(h) ==> TableEnd(h, space) < SECTOR * moved[i]
    {
      if i != first {
        assert Used(bat, i) && Apart(bat[i], bat[first], FullBlockSectors(h));
      }
    }
  }

  // ----- what making room takes ---------------------------------------------------------------------------

  /** By how many sectors making room for `space` bytes may push the end of data. */
  function RoomToMove(h: Header, space: nat): nat
    decreases space
  {
    var full := SECTOR * FullBlockSectors(h);
    CeilDiv(space, SECTOR) + FullBlockSectors(h) + if space > full then RoomToMove(h, space - full) else 0
  }

  /** How many writes it may take: the copy, the entry and the footer of each block that moves. */
  function StepsToMove(h: Header, space: nat): nat
    decreases space
  {
    var full := SECTOR * FullBlockSectors(h);
    3 + if space > full then StepsToMove(h, space - full) else 0
  }

  lemma ToMove(h: Header, space: nat)
    ensures var full := SECTOR * FullBlockSectors(h);
      && RoomToMove(h, space)
        == CeilDiv(space, SECTOR) + FullBlockSectors(h) + (if space > full then RoomToMove(h, space - full) else 0)
      && StepsToMove(h, space) == 3 + if space > full then StepsToMove(h, space - full) else 0
    ensures StepsToMove(h, space) >= 3 && RoomToMove(h, space) >= CeilDiv(space, SECTOR) + FullBlockSectors(h)
  {
  }

  lemma {:induction false} EndSectorMoved(h: Header, bat: Table, id: nat, s: nat, n: nat)
    requires n <= |bat| && id < |bat| && s != BLOCK_UNUSED
    requires forall i | 0 <= i < |bat| :: 0 <= bat[i]
    ensures EndSector(h, bat[id := s], n) <= Max(EndSector(h, bat, n), s + FullBlockSectors(h))
  {
    if n > 0 {
      EndSectorMoved(h, bat, id, s, n - 1);
    }
  }

  /** A new block is put at the end of data. */
  lemma AllocatedEnd(h: Header, bat: Table, id: nat)
    requires Layout(h, bat) && id < h.maxTableEntries
    ensures var end := EndSector(h, bat, h.maxTableEntries);
      end < BLOCK_UNUSED ==> EndSector(h, bat[id := end], h.maxTableEntries) <= end + FullBlockSectors(h)
  {
    var end := EndSector(h, bat, h.maxTableEntries);
    if end < BLOCK_UNUSED {
      EndSectorMoved(h, bat, id, end, h.maxTableEntries);
    }
  }

  /** Where the first block goes, and what that does to the end of data. */
  lemma MovedEnd(h: Header, bat: Table, first: nat, last: nat, space: nat, sector: nat)
    requires Layout(h, bat) && Used(bat, first) && Used(bat, last)
    requires sector == Max(bat[last] + FullBlockSectors(h), CeilDiv(TableEnd(h, space), SECTOR))
    ensures var end := EndSector(h, bat, h.maxTableEntries);
      && sector <= end + CeilDiv(space, SECTOR)
      && (sector < BLOCK_UNUSED ==>
            EndSector(h, bat[first := sector], h.maxTableEntries) <= end + CeilDiv(space, SECTOR) + FullBlockSectors(h))
  {
    var end := EndSector(h, bat, h.maxTableEntries);
    EndSectorBound(h, bat, h.maxTableEntries);
    UsedInTable(h, bat, last);
    hide EndSector, BatSize;
    assert TableEnd(h, space) <= SECTOR * end + space;
    if sector < BLOCK_UNUSED {
      EndSectorMoved(h, bat, first, sector, h.maxTableEntries);
    }
  }

  lemma NothingInTheWay(h: Header, bat: Table, space: nat)
    requires forall i: nat :: !Used(bat, i)
    ensures Clear(h, bat, space)
  {
  }

  /** The space is clear when the first block is beyond it, or once it has moved. */
  lemma RoomMade(h: Header, bat: Table, first: nat, last: nat, space: nat, sector: nat)
    requires Layout(h, bat) && Used(bat, first) && Used(bat, last)
    requires forall i: nat | Used(bat, i) :: bat[first] <= bat[i] <= bat[last]
    requires sector == Max(bat[last] + FullBlockSectors(h), CeilDiv(TableEnd(h, space), SECTOR))
    ensures space <= SECTOR * FullBlockSectors(h) && TableEnd(h, space) < SECTOR * bat[first] ==> Clear(h, bat, space)
    ensures space <= SECTOR * FullBlockSectors(h) ==> Clear(h, bat[first := sector], space)
    ensures var end := EndSector(h, bat, h.maxTableEntries);
      && sector <= end + CeilDiv(space, SECTOR)
      && (sector < BLOCK_UNUSED ==>
            EndSector(h, bat[first := sector], h.maxTableEntries) <= end + CeilDiv(space, SECTOR) + FullBlockSectors(h))
  {
    UsedInTable(h, bat, first);
    MovedEnd(h, bat, first, last, space, sector);
    hide Layout, Clear, EndSector;
    if space <= SECTOR * FullBlockSectors(h) {
      ClearAfterMove(h, bat, first, bat[last], space, sector);
    }
  }

  /** The longer table ends after the data or where it grows to. */
  lemma GrownEnd(h: Header, bat: Table, entries: nat)
    requires Layout(h, bat) && h.maxTableEntries < entries
    ensures var t, h' := GrownTable(bat, h.maxTableEntries, entries), h.(maxTableEntries := entries);
      && entries <= |t| && (forall i | 0 <= i < |t| :: 0 <= t[i])
      && EndSector(h', t, entries)
         <= EndSector(h, bat, h.maxTableEntries) + CeilDiv(Growth(h.maxTableEntries, entries), SECTOR)
  {
    EndSectorBound(h, bat, h.maxTableEntries);
    GrownEndTo(h, bat, entries, entries,
               EndSector(h, bat, h.maxTableEntries) + CeilDiv(Growth(h.maxTableEntries, entries), SECTOR));
  }

  lemma {:induction false} GrownEndTo(h: Header, bat: Table, entries: nat, n: nat, bound: nat)
    requires Layout(h, bat) && h.maxTableEntries < entries && n <= entries
    requires EndOfHeaders(h.(maxTableEntries := entries)) <= SECTOR * bound
    requires forall i: nat | i < h.maxTableEntries && Used(bat, i) :: bat[i] + FullBlockSectors(h) <= bound
    ensures var t, h' := GrownTable(bat, h.maxTableEntries, entries), h.(maxTableEntries := entries);
      && entries <= |t| && (forall i | 0 <= i < |t| :: 0 <= t[i])
      && EndSector(h', t, n) <= bound
  {
    hide BatSize, EndOfHeaders, ValidHeader;
    if n > 0 {
      GrownEndTo(h, bat, entries, n - 1, bound);
      var t := GrownTable(bat, h.maxTableEntries, entries);
      assert n - 1 < h.maxTableEntries ==> t[n - 1] == bat[n - 1];
    }
  }

  function RoomToGrow(h: Header, entries: nat): nat {
    if entries <= h.maxTableEntries then 0
    else RoomToMove(h, Growth(h.maxTableEntries, entries)) + CeilDiv(Growth(h.maxTableEntries, entries), SECTOR)
  }

  /** Making room, then the new entries and the header. */
  function StepsToGrow(h: Header, entries: nat): nat {
    if entries <= h.maxTableEntries then 0 else StepsToMove(h, Growth(h.maxTableEntries, entries)) + 2
  }
}
