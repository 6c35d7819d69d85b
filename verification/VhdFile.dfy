/** A VHD file opened for reading and writing: the block allocator over a flat file of bytes. */
module VhdFile {
  import opened Options
  import opened Bytes
  import opened VhdFormat
  import opened VhdLayout
  import opened Storage

  datatype FirstAndLast = FirstAndLast(first: nat, firstSector: int, last: nat, lastSector: int)

  /** Ids and first sectors of the first and last blocks in the file; None when there is no block. */
  method GetFirstAndLastBlocks(bat: Table) returns (r: Option<FirstAndLast>)
    ensures r.None? <==> forall i: nat :: !Used(bat, i)
    ensures r.Some? ==> Used(bat, r.value.first) && bat[r.value.first] == r.value.firstSector
    ensures r.Some? ==> Used(bat, r.value.last) && bat[r.value.last] == r.value.lastSector
    ensures r.Some? ==> forall i: nat | Used(bat, i) :: r.value.firstSector <= bat[i] <= r.value.lastSector
  {
    if |bat| == 0 {
      return None;
    }
    var i := 0;
    while bat[i] == BLOCK_UNUSED
      invariant i < |bat|
      invariant forall k: nat | k < i :: !Used(bat, k)
      decreases |bat| - i
    {
      i := i + 1;
      if i == |bat| {
        return None;
      }
    }
    var first, firstSector, last, lastSector := i, bat[i], i, bat[i];
    assert Used(bat, i);
    while i < |bat|
      invariant i <= |bat| && firstSector <= lastSector
      invariant Used(bat, first) && bat[first] == firstSector && Used(bat, last) && bat[last] == lastSector
      invariant forall k: nat | k < i && Used(bat, k) :: firstSector <= bat[k] <= lastSector
    {
      var sector := bat[i];
      if sector != BLOCK_UNUSED {
        if sector < firstSector {
          first, firstSector := i, sector;
        } else if sector > lastSector {
          last, lastSector := i, sector;
        }
      }
      i := i + 1;
    }
    r := Some(FirstAndLast(first, firstSector, last, lastSector));
  }

  class VhdFile {
    const handler: Handler
    var header: Header
    var footer: Footer
    var blockTable: Table

    /** What the file stores: full block contents by id. */
    ghost var blocks: map<nat, Buffer>
    /** Blocks whose address an interrupted process recorded without reaching their data. */
    ghost var pending: set<nat>
    /** How many leading entries of `blockTable` are on disk. */
    ghost var synced: nat

    ghost predicate Valid()
      reads this, handler
    {
      && Image(handler.file, header, blockTable, synced, blocks, pending)
      && synced <= header.maxTableEntries
      && ValidFooter(footer)
    }

    ghost predicate OnDisk()
      reads this, handler
    {
      DiskImage(handler.file, header, blocks, pending)
    }

    ghost predicate FooterAtStart()
      reads this, handler
    {
      ValidFooter(footer) && At(handler.file, 0, PackFooter(footer))
    }

    // ----- opening ------------------------------------------------------------------------

    constructor (handler: Handler, header: Header, footer: Footer, blockTable: Table,
                 ghost blocks: map<nat, Buffer>, ghost pending: set<nat>)
      ensures this.handler == handler && this.header == header && this.footer == footer
      ensures this.blockTable == blockTable && this.blocks == blocks && this.pending == pending
      ensures synced == header.maxTableEntries
    {
      this.handler, this.header, this.footer, this.blockTable := handler, header, footer, blockTable;
      this.blocks, this.pending, this.synced := blocks, pending, header.maxTableEntries;
    }

    // ----- reading ------------------------------------------------------------------------

    method GetEndOfHeaders() returns (end: nat)
      requires |header.locators| == PARENT_LOCATOR_ENTRIES
      ensures end == EndOfHeaders(header)
    {
      end := FOOTER_SIZE + HEADER_SIZE;
      end := Max(end, header.tableOffset + BatSize(header.maxTableEntries));
      ghost var base := end;
      for i := 0 to PARENT_LOCATOR_ENTRIES
        invariant end == Max(base, LocatorsEnd(header.locators[..i]))
      {
        var entry := header.locators[i];
        assert header.locators[..i + 1][..i] == header.locators[..i];
        if entry.platformCode != PLATFORM_NONE {
          end := Max(end, entry.platformDataOffset + SECTOR * entry.platformDataSpace);
        }
      }
      assert header.locators[..PARENT_LOCATOR_ENTRIES] == header.locators;
    }

    function GetBatEntry(id: nat): (e: int)
      reads this
      ensures (e != BLOCK_UNUSED) == Used(blockTable, id)
    {
      if id < |blockTable| then blockTable[id] else BLOCK_UNUSED
    }

    predicate ContainsBlock(id: nat)
      reads this
    {
      GetBatEntry(id) != BLOCK_UNUSED
    }

    /** In bytes. */
    method GetEndOfData() returns (end: nat)
      requires Layout(header, blockTable)
      ensures end == SECTOR * EndSector(header, blockTable, header.maxTableEntries)
    {
      var headersEnd := GetEndOfHeaders();
      end := CeilDiv(headersEnd, SECTOR);
      var sectorsOfFullBlock := FullBlockSectors(header);
      for i := 0 to header.maxTableEntries
        invariant end == EndSector(header, blockTable, i)
      {
        var blockAddr := GetBatEntry(i);
        if blockAddr != BLOCK_UNUSED {
          end := Max(end, blockAddr + sectorsOfFullBlock);
        }
      }
      end := SECTOR * end;
    }

    /** None stands for the assertion that the block exists, or for a short read. */
    method ReadBlock(id: nat) returns (r: Option<Buffer>)
      requires Valid()
      ensures id in blocks ==> r == Some(blocks[id])
      ensures id !in blocks && id !in pending ==> r == None
    {
      assert id in blocks ==> Holds(handler.file, header, blockTable, id, blocks[id]);
      var blockAddr := GetBatEntry(id);
      if blockAddr == BLOCK_UNUSED {
        return None;
      }
      r := handler.Read(SECTOR * blockAddr, SECTOR * FullBlockSectors(header));
    }

    // ----- writing ------------------------------------------------------------------------

    /** The failure of a sector number that does not fit its 32-bit entry comes before any effect. */
    method SetBatEntry(id: nat, sector: nat) returns (ok: bool)
      requires id < |blockTable|
      modifies this`blockTable, handler`file, handler`steps
      ensures ok == (sector < BLOCK_UNUSED && old(handler.steps) > 0)
      ensures ok ==> blockTable == old(blockTable)[id := sector] && handler.steps == old(handler.steps) - 1
      ensures ok ==> Patched(old(handler.file), handler.file, header.tableOffset + 4 * id, U32(sector))
      ensures !ok ==> handler.file == old(handler.file)
      ensures old(handler.steps) - 1 <= handler.steps <= old(handler.steps)
    {
      if sector >= BLOCK_UNUSED {
        return false;
      }
      blockTable := blockTable[id := sector];
      ok := handler.Write(header.tableOffset + 4 * id, U32(sector));
    }

    /** The file holds `blocks` through the table `bat`. */
    ghost predicate StoredThrough(bat: Table)
      reads this, handler
    {
      Image(handler.file, header, bat, synced, blocks, pending)
    }

    /** The whole table is on disk. */
    ghost predicate InSync()
      reads this
    {
      synced == header.maxTableEntries
    }

    /** The table once block `id` has an address: its own, or the first sector after all data. */
    ghost function AllocatedTable(id: nat): Table
      requires Valid()
      reads this, handler
    {
      if Used(blockTable, id) || id >= |blockTable| then blockTable
      else blockTable[id := EndSector(header, blockTable, header.maxTableEntries)]
    }

    /** The first sector after all data. */
    ghost function DataEnd(): nat
      requires Valid()
      reads this, handler
    {
      EndSector(header, blockTable, header.maxTableEntries)
    }

    /** The file takes `steps` more writes, and has `sectors` more sectors that an entry of the table can name. */
    ghost predicate Affords(steps: nat, sectors: nat)
      requires Valid()
      reads this, handler
    {
      handler.steps >= steps && DataEnd() + sectors <= BLOCK_UNUSED
    }

    /** Allocates a block after all data; its content is still undefined. */
    method CreateBlock(id: nat) returns (ok: bool)
      requires Valid() && id < header.maxTableEntries && !ContainsBlock(id)
      modifies this`blockTable, this`pending, this`blocks, handler`file, handler`steps
      ensures blocks == old(blocks) - {id} && pending == old(pending) + {id}
      ensures ok
        <==> EndSector(header, old(blockTable), header.maxTableEntries) < BLOCK_UNUSED && old(handler.steps) > 0
      ensures ok ==> Valid() && Used(blockTable, id) && blockTable == old(AllocatedTable(id))
      ensures ok ==> 0 <= blockTable[id] < U32_LIMIT
      ensures ok ==> Patched(old(handler.file), handler.file, header.tableOffset + 4 * id, U32(blockTable[id]))
      ensures !ok ==> StoredThrough(old(blockTable)) && handler.file == old(handler.file)
      ensures old(handler.steps) - 1 <= handler.steps <= old(handler.steps)
      ensures SameStart(old(handler.file), handler.file)
    {
      hide Image, Layout, Apart, EndSector, Patched, SameStart, FullBlockSectors, EndOfHeaders, ValidFooter,
        ValidHeader, BatSize;
      ImageBasics(handler.file, header, blockTable, synced, blocks, pending);
      var endOfData := GetEndOfData();
      var blockAddr := CeilDiv(endOfData, SECTOR);
      assert blockAddr == EndSector(header, blockTable, header.maxTableEntries);
      EndIsFree(header, blockTable);
      ghost var file, bat := handler.file, blockTable;
      SameStartSelf(file);
      ok := SetBatEntry(id, blockAddr);
      blocks, pending := blocks - {id}, pending + {id};
      if ok {
        AssignAddress(file, handler.file, header, bat, synced, id, blockAddr, old(blocks), old(pending));
      } else {
        Forget(file, header, bat, synced, id, old(blocks), old(pending));
      }
    }

    method WriteEntireBlock(id: nat, buffer: Buffer) returns (ok: bool)
      requires Valid() && id < header.maxTableEntries && |buffer| == SECTOR * FullBlockSectors(header)
      modifies this`blockTable, this`pending, this`blocks, handler`file, handler`steps
      ensures ok ==> Valid() && blocks == old(blocks)[id := buffer] && pending == old(pending) - {id}
      ensures ok ==> blockTable == old(AllocatedTable(id)) && DataEnd() <= old(DataEnd()) + FullBlockSectors(header)
      ensures !ok ==> blocks == old(blocks) - {id} && pending == old(pending) + {id}
      ensures !ok ==> StoredThrough(old(blockTable)) || StoredThrough(old(AllocatedTable(id)))
      ensures old(handler.steps) - 2 <= handler.steps <= old(handler.steps)
      ensures old(handler.steps) >= 2 && EndSector(header, old(blockTable), header.maxTableEntries) < BLOCK_UNUSED
        ==> ok
      ensures old(handler.steps) == 0 ==> !ok && handler.file == old(handler.file)
      ensures SameStart(old(handler.file), handler.file)
    {
      hide Image, Holds, Layout, EndSector;
      ImageBasics(handler.file, header, blockTable, synced, blocks, pending);
      AllocatedEnd(header, blockTable, id);
      if GetBatEntry(id) == BLOCK_UNUSED {
        ok := CreateBlock(id);
        if !ok {
          return;
        }
      }
      ghost var file := handler.file;
      ok := handler.Write(SECTOR * blockTable[id], buffer);
      if ok {
        WriteBlockData(file, handler.file, buffer, header, blockTable, synced, id, blocks, pending);
        blocks, pending := blocks[id := buffer], pending - {id};
      } else {
        Forget(file, header, blockTable, synced, id, blocks, pending);
        blocks, pending := blocks - {id}, pending + {id};
      }
    }

    method WriteHeader() returns (ok: bool)
      requires ValidHeader(header)
      modifies handler`file, handler`steps
      ensures ok == (old(handler.steps) > 0) && old(handler.steps) - 1 <= handler.steps <= old(handler.steps)
      ensures ok ==> Patched(old(handler.file), handler.file, FOOTER_SIZE, PackHeader(header))
      ensures !ok ==> handler.file == old(handler.file)
    {
      ok := handler.Write(FOOTER_SIZE, PackHeader(header));
    }

    method WriteBlockAllocationTable() returns (ok: bool)
      requires Valid()
      modifies this`synced, handler`file, handler`steps
      ensures ok == (old(handler.steps) > 0) && old(handler.steps) - 1 <= handler.steps <= old(handler.steps)
      ensures Valid() && synced == if ok then header.maxTableEntries else old(synced)
      ensures !ok ==> handler.file == old(handler.file)
      ensures SameStart(old(handler.file), handler.file)
    {
      ghost var file := handler.file;
      ok := handler.Write(header.tableOffset, PackTable(blockTable));
      if ok {
        WriteTable(file, handler.file, header, blockTable, synced, blocks, pending);
        synced := header.maxTableEntries;
      }
    }

    /** Writes the footer at the end of the file, and first at its start unless told otherwise. */
    method WriteFooter(onlyEndFooter: bool) returns (ok: bool)
      requires Valid()
      modifies handler`file, handler`steps
      ensures Valid() && old(handler.steps) - 2 <= handler.steps <= old(handler.steps)
      ensures old(handler.steps) >= 2 ==> ok
      ensures onlyEndFooter ==> ok == (old(handler.steps) > 0) && old(handler.steps) - 1 <= handler.steps
      ensures ok ==> At(handler.file, |handler.file| - FOOTER_SIZE, PackFooter(footer))
      ensures SameData(old(handler.file), handler.file, SECTOR * EndSector(header, blockTable, header.maxTableEntries))
      ensures ok ==> SECTOR * EndSector(header, blockTable, header.maxTableEntries) + FOOTER_SIZE <= |handler.file|
      ensures ok && !onlyEndFooter ==> FooterAtStart()
      ensures onlyEndFooter ==> SameStart(old(handler.file), handler.file)
      ensures SameStart(old(handler.file), handler.file) || FooterAtStart()
      ensures old(handler.steps) == 0 ==> !ok && handler.file == old(handler.file)
    {
      hide Image, Holds, Layout, EndSector, PackFooter;
      ImageBasics(handler.file, header, blockTable, synced, blocks, pending);
      var rawFooter := PackFooter(footer);
      var eof := |handler.file|;
      var endOfData := GetEndOfData();
      var offset := Max(endOfData, eof - |rawFooter|);
      if !onlyEndFooter {
        ghost var file := handler.file;
        ok := handler.Write(0, rawFooter);
        if !ok {
          return;
        }
        WriteFirstSector(file, handler.file, rawFooter, header, blockTable, synced, blocks, pending);
        PatchedAt(file, handler.file, 0, rawFooter);
      }
      ghost var file := handler.file;
      ok := handler.Write(offset, rawFooter);
      if ok {
        WriteAfterData(file, handler.file, offset, rawFooter, header, blockTable, synced, blocks, pending);
        PatchedAt(file, handler.file, offset, rawFooter);
      }
    }

    // ----- making room ----------------------------------------------------------------------

    /**
     * Moves the first block to the end when it starts within `space` bytes of the table's end.
     * The space is guaranteed free afterwards when it is at most one full block.
     */
    method FreeFirstBlockSpace(space: nat) returns (ok: bool)
      requires Valid() && pending == {}
      modifies this`blockTable, handler`file, handler`steps
      ensures ok ==> Valid() && |blockTable| == |old(blockTable)|
      ensures ok && space <= SECTOR * FullBlockSectors(header) ==> Clear(header, blockTable, space)
      ensures !ok && InSync() ==> OnDisk()
      ensures SameStart(old(handler.file), handler.file)
      ensures ok ==> DataEnd() <= old(DataEnd()) + RoomToMove(header, space)
      ensures old(handler.steps) - StepsToMove(header, space) <= handler.steps <= old(handler.steps)
      ensures old(Affords(StepsToMove(header, space), RoomToMove(header, space))) ==> ok
      decreases space
    {
      hide Image, Holds, BatSize, CeilDiv, EndOfHeaders, ValidHeader, SameData, At, PackFooter, ValidFooter, EndSector,
        RoomToMove, StepsToMove, SameStart, Layout, Clear, FullBlockSectors;
      ImageBasics(handler.file, header, blockTable, synced, blocks, pending);
      ghost var file := handler.file;
      SameStartSelf(file);
      var firstAndLast := GetFirstAndLastBlocks(blockTable);
      if firstAndLast == None {
        NothingInTheWay(header, blockTable, space);
        return true;
      }
      var FirstAndLast(first, firstSector, last, lastSector) := firstAndLast.value;
      var fullBlockSize := SECTOR * FullBlockSectors(header);
      var newMinSector := CeilDiv(TableEnd(header, space), SECTOR);
      ToMove(header, space);
      ok := true;
      RoomMade(header, blockTable, first, last, space, Max(lastSector + FullBlockSectors(header), newMinSector));
      if TableEnd(header, space) >= SECTOR * firstSector {
        var newFirstSector := Max(lastSector + fullBlockSize / SECTOR, newMinSector);
        ok := MoveToEnd(first, newFirstSector);
        if ok && space > fullBlockSize {
          ghost var moved := handler.file;
          ok := FreeFirstBlockSpace(space - fullBlockSize);
          SameStartBoth(file, moved, handler.file);
        }
      }
    }

    /** Moves the first block, then writes the footer after it. */
    method MoveToEnd(first: nat, newFirstSector: nat) returns (ok: bool)
      requires Valid() && pending == {} && Used(blockTable, first)
      requires forall j: nat | Used(blockTable, j) :: blockTable[j] + FullBlockSectors(header) <= newFirstSector
      modifies this`blockTable, handler`file, handler`steps
      ensures ok <==> newFirstSector < BLOCK_UNUSED && old(handler.steps) >= 3
      ensures old(handler.steps) - 3 <= handler.steps <= old(handler.steps)
      ensures ok ==> Valid() && blockTable == old(blockTable)[first := newFirstSector]
      ensures !ok && InSync() ==> OnDisk()
      ensures SameStart(old(handler.file), handler.file)
    {
      hide Image, Layout, SameStart, SameData, FullBlockSectors, ValidFooter, DiskImage, EndSector, PackFooter, At;
      ghost var file := handler.file;
      ok := MoveFirstBlock(first, newFirstSector);
      if !ok {
        return;
      }
      ghost var moved := handler.file;
      ok := WriteFooter(true);
      SameStartBoth(file, moved, handler.file);
      if !ok && synced == header.maxTableEntries {
        ImageOnDisk(handler.file, header, blockTable, blocks, pending);
      }
    }

    method MoveFirstBlock(first: nat, newFirstSector: nat) returns (ok: bool)
      requires Valid() && pending == {} && Used(blockTable, first)
      requires forall j: nat | Used(blockTable, j) :: blockTable[j] + FullBlockSectors(header) <= newFirstSector
      modifies this`blockTable, handler`file, handler`steps
      ensures ok <==> newFirstSector < BLOCK_UNUSED && old(handler.steps) >= 2
      ensures old(handler.steps) - 2 <= handler.steps <= old(handler.steps)
      ensures ok ==> handler.steps == old(handler.steps) - 2
      ensures ok ==> Valid() && blockTable == old(blockTable)[first := newFirstSector]
      ensures !ok && InSync() ==> OnDisk()
      ensures SameStart(old(handler.file), handler.file)
    {
      hide Image, Layout, Patched, At, Holds, SameStart, FullBlockSectors, ValidFooter, DiskImage;
      ghost var file := handler.file;
      ok := CopyFirstBlock(first, newFirstSector);
      ghost var copied, bat := handler.file, blockTable;
      if ok {
        ok := SetBatEntry(first, newFirstSector);
        if ok {
          SwitchAddress(copied, handler.file, header, bat, synced, first, newFirstSector, blocks);
          SameStartBoth(file, copied, handler.file);
        }
      }
      if !ok && synced == header.maxTableEntries {
        ImageOnDisk(handler.file, header, bat, blocks, pending);
      }
    }

    method CopyFirstBlock(first: nat, newFirstSector: nat) returns (ok: bool)
      requires Valid() && pending == {} && Used(blockTable, first)
      requires forall j: nat | Used(blockTable, j) :: blockTable[j] + FullBlockSectors(header) <= newFirstSector
      modifies handler`file, handler`steps
      ensures ok == (old(handler.steps) > 0) && handler.steps == old(handler.steps) - if ok then 1 else 0
      ensures Valid() && first in blocks && SameStart(old(handler.file), handler.file)
      ensures ok ==> At(handler.file, SECTOR * newFirstSector, blocks[first])
      ensures first < |blockTable|
    {
      hide Image, Layout, Patched, SameStart, FullBlockSectors, ValidFooter, EndOfHeaders;
      ghost var file := handler.file;
      ImageBasics(file, header, blockTable, synced, blocks, pending);
      SameStartSelf(file);
      BlockInFile(file, header, blockTable, synced, blocks, first, newFirstSector);
      var block := handler.Read(SECTOR * blockTable[first], SECTOR * FullBlockSectors(header));
      ok := handler.Write(SECTOR * newFirstSector, block.value);
      if ok {
        CopyBeyond(file, handler.file, header, blockTable, synced, newFirstSector, block.value, blocks);
      }
    }

    /**
     * Makes the table at least `entries` long. Entries added here reach the disk with the next write of
     * the whole table.
     */
    method EnsureBatSize(entries: nat) returns (ok: bool)
      requires Valid() && pending == {} && CanGrow(header, |blockTable|, entries)
      modifies this`header, this`blockTable, handler`file, handler`steps
      ensures ok ==> Valid() && header == old(header).(maxTableEntries := Max(old(header).maxTableEntries, entries))
      ensures ok && old(header).maxTableEntries < entries ==> 4 * |blockTable| == BatSize(entries)
      ensures !ok && synced == old(header).maxTableEntries ==> DiskImage(handler.file, old(header), blocks, pending)
      ensures old(header).maxTableEntries >= entries ==> ok && blockTable == old(blockTable)
      ensures old(header).maxTableEntries >= entries
        ==> handler.file == old(handler.file) && handler.steps == old(handler.steps)
      ensures SameStart(old(handler.file), handler.file)
      ensures old(header).maxTableEntries < entries
        ==> old(handler.steps) - StepsToGrow(old(header), entries) <= handler.steps
      ensures ok ==> DataEnd() <= old(DataEnd()) + RoomToGrow(old(header), entries)
      ensures old(Affords(StepsToGrow(header, entries), RoomToGrow(header, entries))) ==> ok
    {
      hide Image, Holds, BatSize, Growth, Layout, Clear, PackHeader, GrownTable, EndOfHeaders;
      ImageBasics(handler.file, header, blockTable, synced, blocks, pending);
      var prevMaxTableEntries := header.maxTableEntries;
      if prevMaxTableEntries >= entries {
        return true;
      }
      ok := FreeFirstBlockSpace(Growth(prevMaxTableEntries, entries));
      if !ok {
        return;
      }
      ghost var file, prevHeader := handler.file, header;
      var prevBat := blockTable;
      header := header.(maxTableEntries := entries);
      blockTable := GrownTable(prevBat, prevMaxTableEntries, entries);
      ok := handler.Write(header.tableOffset + 4 * |prevBat|, Filled(entries - prevMaxTableEntries));
      if ok {
        ghost var filled := handler.file;
        FillTable(file, filled, prevHeader, prevBat, synced, entries, blocks);
        ok := WriteHeader();
        if ok {
          GrowTable(filled, handler.file, prevHeader, prevBat, synced, entries, blocks);
          GrownEnd(prevHeader, prevBat, entries);
        }
      }
      if !ok && synced == prevMaxTableEntries {
        ImageOnDisk(handler.file, prevHeader, prevBat, blocks, pending);
      }
    }
  }

  // ----- opening ----------------------------------------------------------------------------

  /** The file passes every check of opening it and reading its table. */
  predicate Readable(file: Buffer, checkSecondFooter: bool) {
    && FOOTER_SIZE + HEADER_SIZE <= |file|
    && var footer := UnpackFooter(file[..FOOTER_SIZE]);
    && footer.Some?
    && var header := UnpackHeader(file[FOOTER_SIZE..FOOTER_SIZE + HEADER_SIZE], footer.value);
    && header.Some?
    && (checkSecondFooter ==> file[..FOOTER_SIZE] == file[|file| - FOOTER_SIZE..])
    && header.value.tableOffset + 4 * header.value.maxTableEntries <= |file|
  }

  /** Opens the file and reads its block allocation table; null stands for a failed check or read. */
  method Open(handler: Handler, checkSecondFooter: bool, ghost blocks: map<nat, Buffer>, ghost pending: set<nat>)
    returns (vhd: VhdFile?)
    ensures vhd != null <==> Readable(handler.file, checkSecondFooter)
    ensures vhd != null ==> fresh(vhd) && vhd.handler == handler && vhd.blocks == blocks && vhd.pending == pending
    ensures vhd != null ==> UnpackFooter(handler.file[..FOOTER_SIZE]) == Some(vhd.footer)
    ensures vhd != null ==>
      UnpackHeader(handler.file[FOOTER_SIZE..FOOTER_SIZE + HEADER_SIZE], vhd.footer) == Some(vhd.header)
    ensures vhd != null ==> vhd.synced == vhd.header.maxTableEntries
    ensures vhd != null && DiskImage(handler.file, vhd.header, blocks, pending) ==> vhd.Valid()
    ensures vhd != null ==> vhd.header.tableOffset + 4 * vhd.header.maxTableEntries <= |handler.file|
    ensures vhd != null
      ==> vhd.blockTable == DiskTable(handler.file, vhd.header.tableOffset, vhd.header.maxTableEntries)
  {
    hide Image, UnpackFooter, UnpackHeader, ValidHeader;
    var buf := handler.Read(0, FOOTER_SIZE + HEADER_SIZE);
    if buf.None? {
      return null;
    }
    var bufFooter, bufHeader := buf.value[..FOOTER_SIZE], buf.value[FOOTER_SIZE..];
    assert bufFooter == handler.file[..FOOTER_SIZE];
    assert bufHeader == handler.file[FOOTER_SIZE..FOOTER_SIZE + HEADER_SIZE];
    var footer := UnpackFooter(bufFooter);
    if footer.None? {
      return null;
    }
    var header := UnpackHeader(bufHeader, footer.value);
    if header.None? {
      return null;
    }
    if checkSecondFooter {
      var size := |handler.file|;
      var second := handler.Read(size - FOOTER_SIZE, FOOTER_SIZE);
      assert handler.file[size - FOOTER_SIZE..size - FOOTER_SIZE + FOOTER_SIZE] == handler.file[size - FOOTER_SIZE..];
      if second.value != bufFooter {
        return null;
      }
    }
    var table := handler.Read(header.value.tableOffset, header.value.maxTableEntries * 4);
    if table.None? {
      return null;
    }
    var blockTable := DiskTable(handler.file, header.value.tableOffset, header.value.maxTableEntries);
    vhd := new VhdFile(handler, header.value, footer.value, blockTable, blocks, pending);
  }

  /** A file with its header and matching footers in place passes the checks and gives them back. */
  lemma OpensAsWritten(file: Buffer, h: Header, f: Footer, blocks: map<nat, Buffer>, pending: set<nat>)
    requires DiskImage(file, h, blocks, pending) && ValidFooter(f) && At(file, 0, PackFooter(f))
    ensures UnpackFooter(file[..FOOTER_SIZE]) == Some(f)
    ensures UnpackHeader(file[FOOTER_SIZE..FOOTER_SIZE + HEADER_SIZE], f) == if FitsDisk(h, f) then Some(h) else None
    ensures Readable(file, false) <==> FitsDisk(h, f)
    ensures Readable(file, true) <==> FitsDisk(h, f) && At(file, |file| - FOOTER_SIZE, PackFooter(f))
  {
    hide UnpackFooter, UnpackHeader;
    FooterRoundTrip(f);
    HeaderRoundTrip(h, f);
    assert file[..FOOTER_SIZE] == file[0..FOOTER_SIZE] == PackFooter(f);
    assert file[FOOTER_SIZE..FOOTER_SIZE + HEADER_SIZE] == PackHeader(h);
    assert file[|file| - FOOTER_SIZE..] == file[|file| - FOOTER_SIZE..|file| - FOOTER_SIZE + FOOTER_SIZE];
  }
}
