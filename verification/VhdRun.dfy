/**
 * Whole runs of the allocator: whatever the order of writes, moves and growths, the file stays a
 * map from block ids to contents, its regions never overlap, and it reopens with what was written.
 */
module VhdRun {
  import opened Bytes
  import opened VhdFormat
  import opened VhdLayout
  import opened Storage
  import opened VhdFile

  // ----- regions ----------------------------------------------------------------------------

  datatype Region =
    | FooterRegion | HeaderRegion | TableRegion | LocatorRegion(index: nat) | BlockRegion(id: nat) | EndFooterRegion

  /** The regions an image occupies: locators in use, blocks with an address. */
  predicate Present(h: Header, bat: Table, r: Region) {
    match r
    case LocatorRegion(i) => i < |h.locators| && h.locators[i].platformCode != PLATFORM_NONE
    case BlockRegion(id) => Used(bat, id)
    case _ => true
  }

  function Start(h: Header, bat: Table, eof: int, r: Region): int
    requires Present(h, bat, r)
  {
    match r
    case FooterRegion => 0
    case HeaderRegion => FOOTER_SIZE
    case TableRegion => h.tableOffset
    case LocatorRegion(i) => h.locators[i].platformDataOffset
    case BlockRegion(id) => SECTOR * bat[id]
    case EndFooterRegion => eof - FOOTER_SIZE
  }

  function End(h: Header, bat: Table, eof: int, r: Region): int
    requires Present(h, bat, r)
  {
    match r
    case FooterRegion => FOOTER_SIZE
    case HeaderRegion => FOOTER_SIZE + HEADER_SIZE
    case TableRegion => h.tableOffset + BatSize(h.maxTableEntries)
    case LocatorRegion(i) => LocatorEnd(h.locators[i])
    case BlockRegion(id) => SECTOR * (bat[id] + FullBlockSectors(h))
    case EndFooterRegion => eof
  }

  /** What each region is, in numbers: from which byte to which, and which parent locators and blocks have one. */
  lemma RegionPlaces(h: Header, bat: Table, eof: int, i: nat)
    ensures Present(h, bat, FooterRegion) && Present(h, bat, EndFooterRegion)
    ensures Start(h, bat, eof, FooterRegion) == 0 && End(h, bat, eof, FooterRegion) == 512
    ensures Start(h, bat, eof, EndFooterRegion) == eof - 512 && End(h, bat, eof, EndFooterRegion) == eof
    ensures Present(h, bat, HeaderRegion) && Present(h, bat, TableRegion)
    ensures Start(h, bat, eof, HeaderRegion) == 512 && End(h, bat, eof, HeaderRegion) == 1536
    ensures Start(h, bat, eof, TableRegion) == h.tableOffset
      && End(h, bat, eof, TableRegion) == h.tableOffset + BatSize(h.maxTableEntries)
    ensures var r := LocatorRegion(i);
      && (Present(h, bat, r) <==> i < |h.locators| && h.locators[i].platformCode != 0)
      && (Present(h, bat, r) ==>
            && Start(h, bat, eof, r) == h.locators[i].platformDataOffset
            && End(h, bat, eof, r) == h.locators[i].platformDataOffset + 512 * h.locators[i].platformDataSpace)
    ensures var r := BlockRegion(i);
      && (Present(h, bat, r) <==> i < |bat| && bat[i] != 0xFFFF_FFFF)
      && (Present(h, bat, r) ==>
            && Start(h, bat, eof, r) == 512 * bat[i]
            && End(h, bat, eof, r) == 512 * (bat[i] + SectorsOfBitmap(h.blockSize) + h.blockSize / 512))
  {
  }

  /**
   * In a valid layout with its footer after all data, no block overlaps anything else, and neither
   * do the footers, the header and the table among themselves.
   */
  lemma RegionsDisjoint(h: Header, bat: Table, eof: int, a: Region, b: Region)
    requires Layout(h, bat) && SECTOR * EndSector(h, bat, h.maxTableEntries) <= eof - FOOTER_SIZE
    requires Present(h, bat, a) && Present(h, bat, b) && a != b
    requires a.LocatorRegion? ==> b.BlockRegion? || b.EndFooterRegion?
    requires b.LocatorRegion? ==> a.BlockRegion? || a.EndFooterRegion?
    ensures End(h, bat, eof, a) <= Start(h, bat, eof, b) || End(h, bat, eof, b) <= Start(h, bat, eof, a)
  {
    EndSectorBound(h, bat, h.maxTableEntries);
    forall i: nat | i < |h.locators| ensures LocatorEnd(h.locators[i]) <= EndOfHeaders(h) {
      LocatorsEndBound(h.locators, i);
    }
    if a.BlockRegion? && b.BlockRegion? {
      assert Apart(bat[a.id], bat[b.id], FullBlockSectors(h));
    }
  }

  // ----- runs -------------------------------------------------------------------------------

  datatype Op =
    | WriteBlock(id: nat, buffer: Buffer)
    | FreeSpace(space: nat)
    | EnsureTable(entries: nat)
    | WriteTable
    | WriteFooters(onlyEnd: bool)

  /** Each operation is called as its callers do: blocks of the table, whole buffers, bounded growth. */
  ghost predicate Callable(h: Header, tableLength: nat, op: Op) {
    match op
    case WriteBlock(id, buffer) => id < h.maxTableEntries && |buffer| == SECTOR * FullBlockSectors(h)
    case EnsureTable(entries) => CanGrow(h, tableLength, entries)
    case _ => true
  }

  /** The table's announced and actual lengths after an operation. */
  function HeaderAfter(h: Header, op: Op): Header {
    if op.EnsureTable? then h.(maxTableEntries := Max(h.maxTableEntries, op.entries)) else h
  }

  function LengthAfter(h: Header, tableLength: nat, op: Op): nat {
    if op.EnsureTable? && op.entries > h.maxTableEntries then BatSize(op.entries) / 4 else tableLength
  }

  ghost predicate AllCallable(h: Header, tableLength: nat, ops: seq<Op>)
    decreases |ops|
  {
    ops != [] ==>
      && Callable(h, tableLength, ops[0])
      && AllCallable(HeaderAfter(h, ops[0]), LengthAfter(h, tableLength, ops[0]), ops[1..])
  }

  /** The map of contents that the run should leave. */
  function Replay(blocks: map<nat, Buffer>, ops: seq<Op>): map<nat, Buffer>
    decreases |ops|
  {
    if ops == [] then blocks
    else Replay(Written(blocks, ops[0]), ops[1..])
  }

  function HeaderAfterAll(h: Header, ops: seq<Op>): Header
    decreases |ops|
  {
    if ops == [] then h else HeaderAfterAll(HeaderAfter(h, ops[0]), ops[1..])
  }

  // ----- what a stopped run leaves ------------------------------------------------------------

  /** Whether the whole table is on disk, after an operation and after a run: growing it leaves it to be written. */
  function InSyncNext(synced: bool, h: Header, op: Op): bool {
    match op
    case WriteTable => true
    case EnsureTable(entries) => synced && entries <= h.maxTableEntries
    case _ => synced
  }

  function InSyncAfter(synced: bool, h: Header, ops: seq<Op>): bool
    decreases |ops|
  {
    if ops == [] then synced else InSyncAfter(InSyncNext(synced, h, ops[0]), HeaderAfter(h, ops[0]), ops[1..])
  }

  function Written(blocks: map<nat, Buffer>, op: Op): map<nat, Buffer> {
    if op.WriteBlock? then blocks[op.id := op.buffer] else blocks
  }

  /** The block that an operation writes. */
  function Target(op: Op): set<nat> { if op.WriteBlock? then {op.id} else {} }

  /**
   * The file, by the table in it, has every block of `blocks` but the one that the stopped operation was to
   * write.
   */
  ghost predicate StillHolds(file: Buffer, h: Header, blocks: map<nat, Buffer>, stopped: Op) {
    DiskImage(file, h, blocks - Target(stopped), Target(stopped))
  }

  /** One operation more. */
  lemma {:induction false} OneMore(blocks: map<nat, Buffer>, h: Header, synced: bool, ops: seq<Op>, i: nat)
    requires i < |ops|
    ensures Replay(blocks, ops[..i + 1]) == Written(Replay(blocks, ops[..i]), ops[i])
    ensures HeaderAfterAll(h, ops[..i + 1]) == HeaderAfter(HeaderAfterAll(h, ops[..i]), ops[i])
    ensures InSyncAfter(synced, h, ops[..i + 1])
      == InSyncNext(InSyncAfter(synced, h, ops[..i]), HeaderAfterAll(h, ops[..i]), ops[i])
    decreases |ops|
  {
    if i > 0 {
      var rest := ops[1..];
      assert ops[..i + 1][1..] == rest[..i] && ops[..i][1..] == rest[..i - 1] && rest[i - 1] == ops[i];
      OneMore(Written(blocks, ops[0]), HeaderAfter(h, ops[0]), InSyncNext(synced, h, ops[0]), rest, i - 1);
    } else {
      assert ops[..1][1..] == [] && ops[..0] == [];
    }
  }

  // ----- what a run takes ---------------------------------------------------------------------

  /** By how many sectors an operation may push the end of data. */
  function SectorsFor(h: Header, op: Op): nat {
    match op
    case WriteBlock(_, _) => FullBlockSectors(h)
    case FreeSpace(space) => RoomToMove(h, space)
    case EnsureTable(entries) => RoomToGrow(h, entries)
    case _ => 0
  }

  /** How many writes it may take. */
  function StepsFor(h: Header, op: Op): nat {
    match op
    case WriteBlock(_, _) => 2
    case FreeSpace(space) => StepsToMove(h, space)
    case EnsureTable(entries) => StepsToGrow(h, entries)
    case WriteTable => 1
    case WriteFooters(_) => 2
  }

  function SectorsForAll(h: Header, ops: seq<Op>): nat
    decreases |ops|
  {
    if ops == [] then 0 else SectorsFor(h, ops[0]) + SectorsForAll(HeaderAfter(h, ops[0]), ops[1..])
  }

  function StepsForAll(h: Header, ops: seq<Op>): nat
    decreases |ops|
  {
    if ops == [] then 0 else StepsFor(h, ops[0]) + StepsForAll(HeaderAfter(h, ops[0]), ops[1..])
  }

  /**
   * It succeeds if the file takes enough writes and its end stays where sector numbers fit their entries;
   * and it does no more than is counted for it.
   */
  method Step(vhd: VhdFile, op: Op) returns (ok: bool)
    requires vhd.Valid() && vhd.pending == {} && Callable(vhd.header, |vhd.blockTable|, op)
    modifies vhd, vhd.handler`file, vhd.handler`steps
    ensures old(vhd.Affords(StepsFor(vhd.header, op), SectorsFor(vhd.header, op))) ==> ok
    ensures ok ==> vhd.Valid() && vhd.pending == {} && vhd.footer == old(vhd.footer)
    ensures ok ==> vhd.blocks == Written(old(vhd.blocks), op)
    ensures ok ==> vhd.InSync() == InSyncNext(old(vhd.InSync()), old(vhd.header), op)
    ensures !ok && old(vhd.InSync()) ==> StillHolds(vhd.handler.file, old(vhd.header), old(vhd.blocks), op)
    ensures ok ==> vhd.header == HeaderAfter(old(vhd.header), op)
    ensures ok ==> |vhd.blockTable| == LengthAfter(old(vhd.header), |old(vhd.blockTable)|, op)
    ensures ok ==> vhd.handler.steps + StepsFor(old(vhd.header), op) >= old(vhd.handler.steps)
    ensures ok ==> vhd.DataEnd() <= old(vhd.DataEnd()) + SectorsFor(old(vhd.header), op)
  {
    hide Image, Layout, CanGrow, BatSize, EndSector, RoomToMove, StepsToMove, RoomToGrow, StepsToGrow, SameStart,
      SameData, ValidFooter, FullBlockSectors, Clear, PackFooter, At, DiskImage, ValidHeader;
    ImageBasics(vhd.handler.file, vhd.header, vhd.blockTable, vhd.synced, vhd.blocks, vhd.pending);
    ghost var bat, entered := vhd.blockTable, if op.WriteBlock? then vhd.AllocatedTable(op.id) else vhd.blockTable;
    match op {
      case WriteBlock(id, buffer) =>
        ok := vhd.WriteEntireBlock(id, buffer);
        if !ok && vhd.InSync() {
          StoppedAtBlock(vhd, if vhd.StoredThrough(bat) then bat else entered);
        }
      case FreeSpace(space) => ok := vhd.FreeFirstBlockSpace(space);
      case EnsureTable(entries) => ok := vhd.EnsureBatSize(entries);
      case WriteTable => ok := vhd.WriteBlockAllocationTable();
      case WriteFooters(onlyEnd) => ok := vhd.WriteFooter(onlyEnd);
    }
    if !ok && old(vhd.InSync()) && (op.WriteTable? || op.WriteFooters?) {
      StoppedAtBlock(vhd, vhd.blockTable);
    }
    assert {} + Target(op) == Target(op) && (!op.WriteBlock? ==> old(vhd.blocks) - Target(op) == old(vhd.blocks));
  }

  lemma StoppedAtBlock(vhd: VhdFile, bat: Table)
    requires vhd.StoredThrough(bat) && vhd.InSync()
    ensures DiskImage(vhd.handler.file, vhd.header, vhd.blocks, vhd.pending)
  {
    hide Image, DiskImage;
    ImageOnDisk(vhd.handler.file, vhd.header, bat, vhd.blocks, vhd.pending);
  }

  /**
   * Any run of operations. If it stops in the operation after the first `done`, and the table has been written
   * since it last grew, the file has every block as last written, but for the one that was being written.
   */
  method Run(vhd: VhdFile, ops: seq<Op>) returns (ok: bool, ghost done: nat)
    requires vhd.Valid() && vhd.pending == {} && AllCallable(vhd.header, |vhd.blockTable|, ops)
    modifies vhd, vhd.handler`file, vhd.handler`steps
    ensures ok ==> vhd.Valid() && vhd.pending == {} && vhd.footer == old(vhd.footer)
    ensures ok ==> vhd.blocks == Replay(old(vhd.blocks), ops)
    ensures ok ==> vhd.header == HeaderAfterAll(old(vhd.header), ops)
    ensures old(vhd.Affords(StepsForAll(vhd.header, ops), SectorsForAll(vhd.header, ops))) ==> ok
    ensures ok ==> vhd.handler.steps + StepsForAll(old(vhd.header), ops) >= old(vhd.handler.steps)
    ensures !ok ==> done < |ops|
    ensures !ok && InSyncAfter(old(vhd.InSync()), old(vhd.header), ops[..done])
      ==> StillHolds(vhd.handler.file, HeaderAfterAll(old(vhd.header), ops[..done]),
                     Replay(old(vhd.blocks), ops[..done]), ops[done])
  {
    hide Image, CanGrow, StepsFor, SectorsFor, EndSector, Layout, StillHolds, InSyncNext, Written;
    var i := 0;
    ok, done := true, 0;
    while i < |ops|
      invariant 0 <= i <= |ops|
      invariant vhd.Valid() && vhd.pending == {} && vhd.footer == old(vhd.footer)
      invariant AllCallable(vhd.header, |vhd.blockTable|, ops[i..])
      invariant done == i && vhd.blocks == Replay(old(vhd.blocks), ops[..i])
      invariant vhd.header == HeaderAfterAll(old(vhd.header), ops[..i])
      invariant vhd.InSync() == InSyncAfter(old(vhd.InSync()), old(vhd.header), ops[..i])
      invariant Replay(vhd.blocks, ops[i..]) == Replay(old(vhd.blocks), ops)
      invariant HeaderAfterAll(vhd.header, ops[i..]) == HeaderAfterAll(old(vhd.header), ops)
      invariant vhd.handler.steps + StepsForAll(old(vhd.header), ops)
                >= old(vhd.handler.steps) + StepsForAll(vhd.header, ops[i..])
      invariant vhd.DataEnd() + SectorsForAll(vhd.header, ops[i..])
        <= old(vhd.DataEnd()) + SectorsForAll(old(vhd.header), ops)
    {
      assert ops[i..][0] == ops[i] && ops[i..][1..] == ops[i + 1..];
      OneMore(old(vhd.blocks), old(vhd.header), old(vhd.InSync()), ops, i);
      ok := Step(vhd, ops[i]);
      if !ok {
        return;
      }
      i, done := i + 1, done + 1;
    }
  }

  lemma GrowthFitsDisk(h: Header, f: Footer, ops: seq<Op>)
    requires FitsDisk(h, f)
    ensures FitsDisk(HeaderAfterAll(h, ops), f)
    decreases |ops|
  {
    if ops != [] {
      var next := HeaderAfter(h, ops[0]);
      assert next.maxTableEntries * h.blockSize >= h.maxTableEntries * h.blockSize;
      GrowthFitsDisk(next, f, ops[1..]);
    }
  }

  /**
   * Any run of operations, then the table and the footers, then a fresh opening with the check of
   * the second footer: `written` says that no write failed, as it does if the file takes enough writes
   * and its end stays where sector numbers fit their entries. Then the opening succeeds and every block
   * reads back what was last written to it.
   */
  method RunAndReopen(vhd: VhdFile, ops: seq<Op>) returns (written: bool, reopened: VhdFile?)
    requires vhd.Valid() && vhd.pending == {} && AllCallable(vhd.header, |vhd.blockTable|, ops)
    requires FitsDisk(vhd.header, vhd.footer)
    modifies vhd, vhd.handler`file, vhd.handler`steps
    ensures old(vhd.Affords(StepsForAll(vhd.header, ops) + 3, SectorsForAll(vhd.header, ops))) ==> written
    ensures written ==> reopened != null && fresh(reopened) && reopened.Valid() && reopened.pending == {}
    ensures written ==> reopened.blocks == Replay(old(vhd.blocks), ops)
    ensures written ==> reopened.header == HeaderAfterAll(old(vhd.header), ops) && reopened.footer == old(vhd.footer)
  {
    hide Image, AllCallable, StepsForAll, SectorsForAll, EndSector, Layout;
    reopened := null;
    ghost var done;
    written, done := Run(vhd, ops);
    if written {
      written := vhd.WriteBlockAllocationTable();
    }
    if written {
      written := vhd.WriteFooter(false);
    }
    if written {
      GrowthFitsDisk(old(vhd.header), vhd.footer, ops);
      ImageOnDisk(vhd.handler.file, vhd.header, vhd.blockTable, vhd.blocks, {});
      OpensAsWritten(vhd.handler.file, vhd.header, vhd.footer, vhd.blocks, {});
      reopened := Open(vhd.handler, true, vhd.blocks, {});
    }
  }
}
