/** Writing sectors: the disk as a map from sectors to data, each present or absent. */
module VhdSectors {
  import opened Options
  import opened Bytes
  import opened VhdFormat
  import opened VhdLayout
  import opened Storage
  import opened VhdFile
  import opened Bitmap

  function SectorPosition(h: Header, bat: Table, id: nat, s: nat): int
    requires id < |bat|
  {
    SECTOR * (bat[id] + SectorsOfBitmap(h.blockSize) + s)
  }

  /** Whether the block's bitmap marks sector `s` of block `id`. */
  predicate Marked(file: Buffer, h: Header, bat: Table, id: nat, s: nat) {
    && Used(bat, id) && 0 <= bat[id] && SECTOR * bat[id] + s / 8 < |file|
    && BitOf(file[SECTOR * bat[id] + s / 8], s % 8)
  }

  /** What a reader gets for sector `s` of block `id`. */
  function ReadSector(file: Buffer, h: Header, bat: Table, id: nat, s: nat): Option<Buffer> {
    if Marked(file, h, bat, id, s) && SectorPosition(h, bat, id, s) + SECTOR <= |file|
    then Some(file[SectorPosition(h, bat, id, s)..SectorPosition(h, bat, id, s) + SECTOR])
    else None
  }

  /** Sector `s` of a block that is there as `data`: marked by bit `s` of its bitmap, and `s` sectors after that. */
  lemma SectorOfBlock(file: Buffer, h: Header, bat: Table, id: nat, data: Buffer, s: nat)
    requires Holds(file, h, bat, id, data) && Sized(h) && s < h.blockSize / 512
    ensures var p := 512 * (SectorsOfBitmap(h.blockSize) + s);
      s / 8 < |data| && p + 512 <= |data|
      && ReadSector(file, h, bat, id, s) == if Test(data, s) then Some(data[p..p + 512]) else None
  {
    BitmapCovers(h);
    var at, p := SECTOR * bat[id], SECTOR * (SectorsOfBitmap(h.blockSize) + s);
    assert data[s / 8] == file[at..at + |data|][s / 8] == file[at + s / 8];
    SubSlice(file, at, at + |data|, p, 512);
  }

  /** Every block has its bitmap on disk, and every marked sector its data. */
  ghost predicate SectorsStored(file: Buffer, h: Header, bat: Table) {
    && (forall id: nat | Used(bat, id) :: SECTOR * (bat[id] + SectorsOfBitmap(h.blockSize)) <= |file|)
    && (forall id: nat, s: nat | s < SectorsPerBlock(h.blockSize) && Marked(file, h, bat, id, s) ::
          SectorPosition(h, bat, id, s) + SECTOR <= |file|)
  }

  // ----- the bitmap is long enough ---------------------------------------------------------

  /** A bitmap has a bit for every sector of its block. */
  lemma BitmapCovers(h: Header)
    requires ValidBlockSize(h) && IsPowerOfTwo(h.blockSize)
    ensures SectorsPerBlock(h.blockSize) <= 8 * SECTOR * SectorsOfBitmap(h.blockSize)
  {
    if h.blockSize >= 8 * SECTOR {
      assert IsPowerOfTwo(4096);
      var q := PowerDividesPower(h.blockSize, 8 * SECTOR);
      assert SectorsPerBlock(h.blockSize) == 8 * q;
    }
  }

  // ----- what writes do to sectors ---------------------------------------------------------------

  predicate Sized(h: Header) { ValidBlockSize(h) && IsPowerOfTwo(h.blockSize) }

  /** As the header check wants it. */
  lemma PowersAreSized(h: Header)
    requires h.blockSize >= 512
    ensures Sized(h) <==> IsPowerOfTwo(h.blockSize)
  {
    if IsPowerOfTwo(h.blockSize) {
      assert IsPowerOfTwo(32);
      assert IsPowerOfTwo(512);
      var q := PowerDividesPower(h.blockSize, 512);
      assert h.blockSize == 512 * q;
    }
  }

  /** A write outside block `id` leaves its sectors as they are. */
  lemma SectorKept(file: Buffer, after: Buffer, at: nat, data: Buffer, h: Header, bat: Table, id: nat, s: nat)
    requires Sized(h) && Patched(file, after, at, data)
    requires Used(bat, id) && 0 <= bat[id] && s < SectorsPerBlock(h.blockSize)
    requires SECTOR * (bat[id] + SectorsOfBitmap(h.blockSize)) <= |file|
    requires Marked(file, h, bat, id, s) ==> SectorPosition(h, bat, id, s) + SECTOR <= |file|
    requires at + |data| <= SECTOR * bat[id] || SECTOR * (bat[id] + FullBlockSectors(h)) <= at
    ensures ReadSector(after, h, bat, id, s) == ReadSector(file, h, bat, id, s)
    ensures Marked(after, h, bat, id, s) == Marked(file, h, bat, id, s)
    ensures Marked(file, h, bat, id, s) ==> SectorPosition(h, bat, id, s) + SECTOR <= |after|
    ensures SECTOR * (bat[id] + SectorsOfBitmap(h.blockSize)) <= |after|
  {
    BitmapCovers(h);
    var p := SectorPosition(h, bat, id, s);
    assert s / 8 < SECTOR * SectorsOfBitmap(h.blockSize);
    assert after[SECTOR * bat[id] + s / 8] == file[SECTOR * bat[id] + s / 8];
    hide BitOf;
    if Marked(file, h, bat, id, s) {
      PatchedKeeps(file, after, at, data, p, file[p..p + SECTOR]);
    }
  }

  /**
   * The sectors of a block after its new bitmap and the sectors `begin` to `end` are written: those
   * are marked and hold the data, and each other is marked as in the new bitmap, with its data kept.
   */
  lemma SectorWritten(file: Buffer, mapped: Buffer, after: Buffer, bitmap: Buffer, data: Buffer,
                      h: Header, bat: Table, id: nat, begin: nat, end: nat, s: nat)
    requires Sized(h) && Used(bat, id) && 0 <= bat[id] && begin <= end <= SectorsPerBlock(h.blockSize)
    requires |bitmap| == SECTOR * SectorsOfBitmap(h.blockSize) && |data| == SECTOR * (end - begin)
    requires s < SectorsPerBlock(h.blockSize)
    requires Patched(file, mapped, SECTOR * bat[id], bitmap)
    requires Patched(mapped, after, SectorPosition(h, bat, id, begin), data)
    ensures s / 8 < |bitmap| && SECTOR * bat[id] + |bitmap| <= |after|
    ensures Marked(after, h, bat, id, s) == Test(bitmap, s)
    ensures begin <= s < end && Test(bitmap, s)
      ==> ReadSector(after, h, bat, id, s) == Some(data[SECTOR * (s - begin)..SECTOR * (s - begin) + SECTOR])
    ensures !(begin <= s < end) && Test(bitmap, s) && SectorPosition(h, bat, id, s) + SECTOR <= |file|
      ==> ReadSector(after, h, bat, id, s)
          == Some(file[SectorPosition(h, bat, id, s)..SectorPosition(h, bat, id, s) + SECTOR])
  {
    BitmapCovers(h);
    var p := SectorPosition(h, bat, id, s);
    assert after[SECTOR * bat[id] + s / 8] == mapped[SECTOR * bat[id] + s / 8] == bitmap[s / 8];
    hide BitOf;
    if begin <= s < end {
      SubWrite(mapped, after, SectorPosition(h, bat, id, begin), data, SECTOR * (s - begin), SECTOR);
    } else if p + SECTOR <= |file| {
      PatchedKeeps(file, mapped, SECTOR * bat[id], bitmap, p, file[p..p + SECTOR]);
      PatchedKeeps(mapped, after, SectorPosition(h, bat, id, begin), data, p, file[p..p + SECTOR]);
    }
  }

  lemma SubWrite(file: Buffer, after: Buffer, at: nat, data: Buffer, from: nat, n: nat)
    requires Patched(file, after, at, data) && from + n <= |data| && n > 0
    ensures at + from + n <= |after| && after[at + from..at + from + n] == data[from..from + n]
  {
  }

  // ----- one block -------------------------------------------------------------------------------

  /**
   * Exactly the sectors `begin` to `end` of block `id` have changed: they are present with the data
   * of `block`.
   */
  ghost predicate BlockUpdated(file: Buffer, bat: Table, after: Buffer, bat': Table, h: Header,
                               id: nat, begin: nat, end: nat, block: Buffer)
    requires |block| == SECTOR * SectorsPerBlock(h.blockSize) && end <= SectorsPerBlock(h.blockSize)
  {
    forall j: nat, s: nat | s < SectorsPerBlock(h.blockSize) ::
      ReadSector(after, h, bat', j, s)
      == if j == id && begin <= s < end then Some(block[SECTOR * s..SECTOR * s + SECTOR])
        else ReadSector(file, h, bat, j, s)
  }

  /** `bat'` gives `id` an address, if it had none, and changes nothing else. */
  ghost predicate Allocated(file: Buffer, bat: Table, after: Buffer, bat': Table, h: Header, id: nat) {
    && Used(bat', id) && |bat'| == |bat|
    && if Used(bat, id) then bat' == bat && after == file
       else id < |bat| && bat' == bat[id := bat'[id]] && 0 <= bat'[id] < U32_LIMIT
            && Patched(file, after, h.tableOffset + 4 * id, U32(bat'[id]))
  }

  /** The block's bitmap before the write: as stored, or empty for a new block. */
  ghost predicate OldBitmap(file: Buffer, bat: Table, h: Header, id: nat, bitmap: Buffer) {
    && |bitmap| == SECTOR * SectorsOfBitmap(h.blockSize)
    && if Used(bat, id) then 0 <= bat[id] && At(file, SECTOR * bat[id], bitmap) else bitmap == Zeros(|bitmap|)
  }

  /** Another block is apart from block `id` and from its entry. */
  lemma OtherBlockPlace(h: Header, bat: Table, id: nat, j: nat)
    requires Layout(h, bat) && Used(bat, id) && Used(bat, j) && id != j && id < h.maxTableEntries
    ensures Apart(bat[j], bat[id], FullBlockSectors(h)) && 0 <= bat[j] && 0 <= bat[id]
    ensures h.tableOffset + 4 * id + 4 <= SECTOR * bat[j]
  {
    assert h.tableOffset + 4 * id + 4 <= EndOfHeaders(h) <= SECTOR * bat[j];
  }

  /** Other blocks through the three writes. */
  lemma OtherBlockKept(file: Buffer, bat: Table, entered: Buffer, bat': Table, mapped: Buffer, after: Buffer,
                       bitmap: Buffer, data: Buffer, h: Header, id: nat, begin: nat, end: nat, j: nat, s: nat)
    requires Sized(h) && Layout(h, bat) && Layout(h, bat') && SectorsStored(file, h, bat)
    requires Allocated(file, bat, entered, bat', h, id) && id < h.maxTableEntries
    requires |bitmap| == SECTOR * SectorsOfBitmap(h.blockSize) && begin <= end <= SectorsPerBlock(h.blockSize)
    requires |data| == SECTOR * (end - begin)
    requires Patched(entered, mapped, SECTOR * bat'[id], bitmap)
    requires Patched(mapped, after, SectorPosition(h, bat', id, begin), data)
    requires j != id && s < SectorsPerBlock(h.blockSize)
    ensures ReadSector(after, h, bat', j, s) == ReadSector(file, h, bat, j, s)
    ensures Marked(after, h, bat', j, s) == Marked(file, h, bat, j, s)
    ensures Used(bat, j) ==> Used(bat', j) && SECTOR * (bat'[j] + SectorsOfBitmap(h.blockSize)) <= |after|
  {
    assert Used(bat', j) == Used(bat, j) && (Used(bat, j) ==> bat'[j] == bat[j]);
    assert ReadSector(file, h, bat', j, s)
      == ReadSector(file, h, bat, j, s) && Marked(file, h, bat', j, s) == Marked(file, h, bat, j, s);
    if Used(bat, j) {
      OtherBlockPlace(h, bat', id, j);
      hide BitOf, Layout, ReadSector, Marked, Patched;
      if entered != file {
        SectorKept(file, entered, h.tableOffset + 4 * id, U32(bat'[id]), h, bat', j, s);
      }
      SectorKept(entered, mapped, SECTOR * bat'[id], bitmap, h, bat', j, s);
      SectorKept(mapped, after, SectorPosition(h, bat', id, begin), data, h, bat', j, s);
    }
  }

  /** The written block through the three writes. */
  lemma WrittenBlockSector(file: Buffer, bat: Table, entered: Buffer, bat': Table, mapped: Buffer, after: Buffer,
                           old': Buffer, bitmap: Buffer, block: Buffer, h: Header, id: nat, begin: nat, end: nat,
                           s: nat)
    requires Sized(h) && SectorsStored(file, h, bat)
    requires Allocated(file, bat, entered, bat', h, id) && OldBitmap(file, bat, h, id, old')
    requires |bitmap| == |old'| && begin <= end <= SectorsPerBlock(h.blockSize)
    requires |block| == SECTOR * SectorsPerBlock(h.blockSize)
    requires forall k: nat | k < 8 * |bitmap| :: Test(bitmap, k) == (begin <= k < end || Test(old', k))
    requires Patched(entered, mapped, SECTOR * bat'[id], bitmap)
    requires Patched(mapped, after, SectorPosition(h, bat', id, begin), block[SECTOR * begin..SECTOR * end])
    requires s < SectorsPerBlock(h.blockSize)
    ensures ReadSector(after, h, bat', id, s)
      == if begin <= s < end then Some(block[SECTOR * s..SECTOR * s + SECTOR]) else ReadSector(file, h, bat, id, s)
    ensures Marked(after, h, bat', id, s) ==> ReadSector(after, h, bat', id, s).Some?
    ensures SECTOR * (bat'[id] + SectorsOfBitmap(h.blockSize)) <= |after|
  {
    var data := block[SECTOR * begin..SECTOR * end];
    BitmapCovers(h);
    assert 0 <= bat'[id];
    SectorWritten(entered, mapped, after, bitmap, data, h, bat', id, begin, end, s);
    OldMark(file, bat, h, id, old', s);
    assert Test(bitmap, s) == (begin <= s < end || Test(old', s));
    assert !Used(bat, id) ==> !Marked(file, h, bat, id, s);
    assert Marked(file, h, bat, id, s) ==> SectorPosition(h, bat, id, s) + SECTOR <= |file|;
    hide Patched, BitOf, Marked, OldBitmap, Test, Sized, SectorsStored;
    if begin <= s < end {
      SubSlice(block, SECTOR * begin, SECTOR * end, SECTOR * (s - begin), SECTOR);
    }
  }

  lemma OldMark(file: Buffer, bat: Table, h: Header, id: nat, bitmap: Buffer, s: nat)
    requires Sized(h) && OldBitmap(file, bat, h, id, bitmap) && s < SectorsPerBlock(h.blockSize)
    ensures s / 8 < |bitmap| && Test(bitmap, s) == Marked(file, h, bat, id, s)
  {
    BitmapCovers(h);
    if Used(bat, id) {
      assert bitmap[s / 8] == file[SECTOR * bat[id]..SECTOR * bat[id] + |bitmap|][s / 8];
    } else {
      NoBits(s % 8);
    }
  }

  /** The three writes of a block's sectors, on the whole disk. */
  lemma BlockWritten(file: Buffer, bat: Table, entered: Buffer, bat': Table, mapped: Buffer, after: Buffer,
                     old': Buffer, bitmap: Buffer, block: Buffer, h: Header, id: nat, begin: nat, end: nat)
    requires Sized(h) && Layout(h, bat) && Layout(h, bat') && SectorsStored(file, h, bat) && id < h.maxTableEntries
    requires Allocated(file, bat, entered, bat', h, id) && OldBitmap(file, bat, h, id, old')
    requires |bitmap| == |old'| && begin <= end <= SectorsPerBlock(h.blockSize)
    requires |block| == SECTOR * SectorsPerBlock(h.blockSize)
    requires forall k: nat | k < 8 * |bitmap| :: Test(bitmap, k) == (begin <= k < end || Test(old', k))
    requires Patched(entered, mapped, SECTOR * bat'[id], bitmap)
    requires Patched(mapped, after, SectorPosition(h, bat', id, begin), block[SECTOR * begin..SECTOR * end])
    ensures BlockUpdated(file, bat, after, bat', h, id, begin, end, block)
    ensures SectorsStored(after, h, bat')
  {
    var data := block[SECTOR * begin..SECTOR * end];
    assert forall j: nat | j != id :: Used(bat', j) == Used(bat, j);
    assert forall j: nat, s: nat | Marked(after, h, bat', j, s) :: Used(bat', j);
    assert forall j: nat, s: nat | ReadSector(after, h, bat', j, s).Some? ::
      SectorPosition(h, bat', j, s) + SECTOR <= |after|;
    hide Layout, Patched, ReadSector, OldBitmap, Test, Marked, Allocated, Sized;
    forall j: nat, s: nat | s < SectorsPerBlock(h.blockSize)
      ensures ReadSector(after, h, bat', j, s)
        == if j == id && begin <= s < end then Some(block[SECTOR * s..SECTOR * s + SECTOR])
          else ReadSector(file, h, bat, j, s)
      ensures Used(bat', j) ==> SECTOR * (bat'[j] + SectorsOfBitmap(h.blockSize)) <= |after|
      ensures Marked(after, h, bat', j, s) ==> SectorPosition(h, bat', j, s) + SECTOR <= |after|
    {
      if j == id {
        WrittenBlockSector(file, bat, entered, bat', mapped, after, old', bitmap, block, h, id, begin, end, s);
      } else {
        OtherBlockKept(file, bat, entered, bat', mapped, after, bitmap, data, h, id, begin, end, j, s);
      }
    }
  }

  /**
   * After a write of the sectors `begin` to `end` of block `id` has stopped: all other sectors are as they
   * were, in this block too if it is not a new one.
   */
  ghost predicate BlockStopped(file: Buffer, bat: Table, after: Buffer, stored: Table, h: Header, id: nat, begin: nat,
                               end: nat) {
    forall j: nat, s: nat | s < SectorsPerBlock(h.blockSize) && (j != id || (Used(bat, id) && !(begin <= s < end))) ::
      ReadSector(after, h, stored, j, s) == ReadSector(file, h, bat, j, s)
  }

  /** Stopped before the bitmap is written. */
  lemma StoppedEntered(file: Buffer, bat: Table, entered: Buffer, bat': Table, h: Header, id: nat, begin: nat, end: nat)
    requires Sized(h) && Layout(h, bat) && Layout(h, bat') && SectorsStored(file, h, bat) && id < h.maxTableEntries
    requires Allocated(file, bat, entered, bat', h, id)
    ensures BlockStopped(file, bat, entered, bat', h, id, begin, end)
  {
    forall j: nat, s: nat | s < SectorsPerBlock(h.blockSize) && (j != id || (Used(bat, id) && !(begin <= s < end)))
      ensures ReadSector(entered, h, bat', j, s) == ReadSector(file, h, bat, j, s)
    {
      OtherBlockEntered(file, bat, entered, bat', h, id, j, s);
    }
  }

  lemma OtherBlockEntered(file: Buffer, bat: Table, entered: Buffer, bat': Table, h: Header, id: nat, j: nat, s: nat)
    requires Sized(h) && Layout(h, bat) && Layout(h, bat') && SectorsStored(file, h, bat) && id < h.maxTableEntries
    requires Allocated(file, bat, entered, bat', h, id) && s < SectorsPerBlock(h.blockSize)
    requires j != id || Used(bat, id)
    ensures ReadSector(entered, h, bat', j, s) == ReadSector(file, h, bat, j, s)
  {
    if !Used(bat, id) {
      assert Used(bat', j) == Used(bat, j) && (Used(bat, j) ==> bat'[j] == bat[j]);
      assert ReadSector(file, h, bat', j, s)
        == ReadSector(file, h, bat, j, s) && Marked(file, h, bat', j, s) == Marked(file, h, bat, j, s);
      if Used(bat, j) {
        OtherBlockPlace(h, bat', id, j);
        hide BitOf, Layout, Patched, ReadSector, Marked;
        SectorKept(file, entered, h.tableOffset + 4 * id, U32(bat'[id]), h, bat', j, s);
      }
    }
  }

  /** Stopped between the bitmap and the sectors. */
  lemma StoppedMapped(file: Buffer, bat: Table, entered: Buffer, bat': Table, mapped: Buffer,
                      old': Buffer, bitmap: Buffer, h: Header, id: nat, begin: nat, end: nat)
    requires Sized(h) && Layout(h, bat) && Layout(h, bat') && SectorsStored(file, h, bat) && id < h.maxTableEntries
    requires Allocated(file, bat, entered, bat', h, id) && OldBitmap(file, bat, h, id, old')
    requires |bitmap| == |old'| && begin <= end <= SectorsPerBlock(h.blockSize)
    requires forall k: nat | k < 8 * |bitmap| :: Test(bitmap, k) == (begin <= k < end || Test(old', k))
    requires Patched(entered, mapped, SECTOR * bat'[id], bitmap)
    ensures BlockStopped(file, bat, mapped, bat', h, id, begin, end)
  {
    assert Patched(mapped, mapped, SectorPosition(h, bat', id, 0), []);
    hide Patched, ReadSector, OldBitmap, Test, Marked, Layout, Sized;
    forall j: nat, s: nat | s < SectorsPerBlock(h.blockSize) && (j != id || (Used(bat, id) && !(begin <= s < end)))
      ensures ReadSector(mapped, h, bat', j, s) == ReadSector(file, h, bat, j, s)
    {
      if j == id {
        UnwrittenSector(file, bat, mapped, old', bitmap, h, id, begin, end, s);
      } else {
        OtherBlockKept(file, bat, entered, bat', mapped, mapped, bitmap, [], h, id, 0, 0, j, s);
      }
    }
  }

  lemma UnwrittenSector(file: Buffer, bat: Table, mapped: Buffer, old': Buffer, bitmap: Buffer, h: Header,
                        id: nat, begin: nat, end: nat, s: nat)
    requires Sized(h) && Used(bat, id) && 0 <= bat[id] && SectorsStored(file, h, bat)
    requires OldBitmap(file, bat, h, id, old')
    requires |bitmap| == |old'| && s < SectorsPerBlock(h.blockSize) && !(begin <= s < end)
    requires forall k: nat | k < 8 * |bitmap| :: Test(bitmap, k) == (begin <= k < end || Test(old', k))
    requires Patched(file, mapped, SECTOR * bat[id], bitmap)
    ensures ReadSector(mapped, h, bat, id, s) == ReadSector(file, h, bat, id, s)
  {
    BitmapCovers(h);
    SectorWritten(file, mapped, mapped, bitmap, [], h, bat, id, 0, 0, s);
    OldMark(file, bat, h, id, old', s);
    assert Test(bitmap, s) == Test(old', s);
  }

  /** What of a block has reached the disk when its write stops before the sectors themselves are written. */
  datatype Reach = NoWrite | EntryOnly | EntryAndBitmap

  /**
   * Of block `id` itself: without the bitmap, its sectors are what the file had at its address; with it, the
   * sectors `begin` to `end` are marked but hold what the file had there, and the others are as they were.
   */
  ghost predicate BlockReached(file: Buffer, bat: Table, after: Buffer, stored: Table, h: Header, id: nat, begin: nat,
                               end: nat, reach: Reach) {
    match reach
    case NoWrite => after == file && stored == bat
    case EntryOnly =>
      && Used(stored, id) && (Used(bat, id) ==> after == file && stored == bat)
      && forall s: nat | s < SectorsPerBlock(h.blockSize) ::
           ReadSector(after, h, stored, id, s) == ReadSector(file, h, stored, id, s)
    case EntryAndBitmap =>
      && Used(stored, id) && 0 <= stored[id]
      && forall s: nat | s < SectorsPerBlock(h.blockSize) ::
           if begin <= s < end
           then Marked(after, h, stored, id, s) && Untouched(file, after, SectorPosition(h, stored, id, s))
           else ReadSector(after, h, stored, id, s) == ReadSector(file, h, bat, id, s)
  }

  /** The sector at `p` holds what the file had there. */
  ghost predicate Untouched(file: Buffer, after: Buffer, p: nat) {
    p + SECTOR <= |file| ==> p + SECTOR <= |after| && after[p..p + SECTOR] == file[p..p + SECTOR]
  }

  lemma EnteredBlock(file: Buffer, bat: Table, entered: Buffer, bat': Table, h: Header, id: nat, begin: nat, end: nat)
    requires Sized(h) && Layout(h, bat') && id < h.maxTableEntries && Allocated(file, bat, entered, bat', h, id)
    ensures BlockReached(file, bat, entered, bat', h, id, begin, end, EntryOnly)
  {
    if entered != file {
      assert h.tableOffset + 4 * id + 4 <= EndOfHeaders(h) <= SECTOR * bat'[id];
      forall s: nat | s < SectorsPerBlock(h.blockSize)
        ensures ReadSector(entered, h, bat', id, s) == ReadSector(file, h, bat', id, s)
      {
        EnteredSector(file, entered, bat', h, id, s);
      }
    }
  }

  lemma EnteredSector(file: Buffer, entered: Buffer, bat: Table, h: Header, id: nat, s: nat)
    requires Sized(h) && Used(bat, id) && 0 <= bat[id] < U32_LIMIT && s < SectorsPerBlock(h.blockSize)
    requires Patched(file, entered, h.tableOffset + 4 * id, U32(bat[id]))
    requires h.tableOffset + 4 * id + 4 <= SECTOR * bat[id]
    ensures ReadSector(entered, h, bat, id, s) == ReadSector(file, h, bat, id, s)
  {
    var p := SectorPosition(h, bat, id, s);
    if p + SECTOR <= |file| {
      PatchedKeeps(file, entered, h.tableOffset + 4 * id, U32(bat[id]), p, file[p..p + SECTOR]);
    }
  }

  lemma MappedBlock(file: Buffer, bat: Table, entered: Buffer, bat': Table, mapped: Buffer,
                    old': Buffer, bitmap: Buffer, h: Header, id: nat, begin: nat, end: nat)
    requires Sized(h) && Layout(h, bat) && Layout(h, bat') && SectorsStored(file, h, bat) && id < h.maxTableEntries
    requires Allocated(file, bat, entered, bat', h, id) && OldBitmap(file, bat, h, id, old')
    requires |bitmap| == |old'| && begin <= end <= SectorsPerBlock(h.blockSize)
    requires forall k: nat | k < 8 * |bitmap| :: Test(bitmap, k) == (begin <= k < end || Test(old', k))
    requires Patched(entered, mapped, SECTOR * bat'[id], bitmap)
    ensures BlockReached(file, bat, mapped, bat', h, id, begin, end, EntryAndBitmap)
  {
    assert Patched(mapped, mapped, SectorPosition(h, bat', id, 0), []);
    assert 0 <= bat'[id] && h.tableOffset + 4 * id + 4 <= EndOfHeaders(h) <= SECTOR * bat'[id];
    forall s: nat | s < SectorsPerBlock(h.blockSize)
      ensures if begin <= s < end
        then Marked(mapped, h, bat', id, s) && Untouched(file, mapped, SectorPosition(h, bat', id, s))
        else ReadSector(mapped, h, bat', id, s) == ReadSector(file, h, bat, id, s)
    {
      MappedSector(file, bat, entered, bat', mapped, old', bitmap, h, id, begin, end, s);
    }
  }

  lemma MappedSector(file: Buffer, bat: Table, entered: Buffer, bat': Table, mapped: Buffer,
                     old': Buffer, bitmap: Buffer, h: Header, id: nat, begin: nat, end: nat, s: nat)
    requires Sized(h) && SectorsStored(file, h, bat) && s < SectorsPerBlock(h.blockSize)
    requires Allocated(file, bat, entered, bat', h, id) && OldBitmap(file, bat, h, id, old')
    requires |bitmap| == |old'| && begin <= end <= SectorsPerBlock(h.blockSize)
    requires forall k: nat | k < 8 * |bitmap| :: Test(bitmap, k) == (begin <= k < end || Test(old', k))
    requires Patched(entered, mapped, SECTOR * bat'[id], bitmap) && 0 <= bat'[id]
    requires Patched(mapped, mapped, SectorPosition(h, bat', id, 0), [])
    requires h.tableOffset + 4 * id + 4 <= SECTOR * bat'[id]
    ensures if begin <= s < end
      then Marked(mapped, h, bat', id, s) && Untouched(file, mapped, SectorPosition(h, bat', id, s))
      else ReadSector(mapped, h, bat', id, s) == ReadSector(file, h, bat, id, s)
  {
    var p := SectorPosition(h, bat', id, s);
    SectorWritten(entered, mapped, mapped, bitmap, [], h, bat', id, 0, 0, s);
    OldMark(file, bat, h, id, old', s);
    assert Test(bitmap, s) == (begin <= s < end || Test(old', s));
    if begin <= s < end {
      hide Marked, Test, OldBitmap, SectorsStored, Sized;
      if p + SECTOR <= |file| {
        if entered != file {
          PatchedKeeps(file, entered, h.tableOffset + 4 * id, U32(bat'[id]), p, file[p..p + SECTOR]);
        }
        PatchedKeeps(entered, mapped, SECTOR * bat'[id], bitmap, p, file[p..p + SECTOR]);
      }
    } else if Used(bat, id) {
      UnwrittenSector(file, bat, mapped, old', bitmap, h, id, begin, end, s);
    }
  }

  /** The block's address and bitmap: as stored, or new ones. */
  method OpenBlock(vhd: VhdFile, id: nat) returns (ok: bool, bitmap: Buffer)
    requires vhd.Valid() && SectorsStored(vhd.handler.file, vhd.header, vhd.blockTable)
    requires id < vhd.header.maxTableEntries
    modifies vhd`blockTable, vhd`pending, vhd`blocks, vhd.handler`file, vhd.handler`steps
    ensures ok ==> vhd.Valid() && Layout(vhd.header, old(vhd.blockTable)) && Layout(vhd.header, vhd.blockTable)
    ensures ok
      ==> Allocated(old(vhd.handler.file), old(vhd.blockTable), vhd.handler.file, vhd.blockTable, vhd.header, id)
    ensures ok ==> OldBitmap(old(vhd.handler.file), old(vhd.blockTable), vhd.header, id, bitmap)
    ensures ok ==> 0 <= vhd.blockTable[id] && vhd.DataEnd() <= old(vhd.DataEnd()) + FullBlockSectors(vhd.header)
    ensures !ok ==> vhd.handler.file == old(vhd.handler.file) && vhd.StoredThrough(old(vhd.blockTable))
    ensures old(vhd.handler.steps) - 1 <= vhd.handler.steps
    ensures old(vhd.Affords(1, FullBlockSectors(vhd.header))) ==> ok
  {
    ghost var file, bat := vhd.handler.file, vhd.blockTable;
    ImageBasics(file, vhd.header, bat, vhd.synced, vhd.blocks, vhd.pending);
    assert Used(bat, id) ==> SECTOR * (bat[id] + SectorsOfBitmap(vhd.header.blockSize)) <= |file|;
    AllocatedEnd(vhd.header, bat, id);
    hide Image, Layout, EndSector, FullBlockSectors, Patched, SameStart, ValidFooter, SectorsStored, Zeros,
      SectorsOfBitmap;
    bitmap := [];
    if vhd.GetBatEntry(id) == BLOCK_UNUSED {
      ok := vhd.CreateBlock(id);
      if ok {
        bitmap := Zeros(SECTOR * SectorsOfBitmap(vhd.header.blockSize));
        ImageBasics(vhd.handler.file, vhd.header, vhd.blockTable, vhd.synced, vhd.blocks, vhd.pending);
      }
    } else {
      var r := vhd.handler.Read(SECTOR * vhd.blockTable[id], SECTOR * SectorsOfBitmap(vhd.header.blockSize));
      ok, bitmap := true, r.value;
    }
  }

  /** A write inside block `id`. */
  method WriteInside(vhd: VhdFile, id: nat, offset: nat, data: Buffer) returns (ok: bool)
    requires vhd.Valid() && Used(vhd.blockTable, id)
    requires SECTOR * vhd.blockTable[id] <= offset
    requires offset + |data| <= SECTOR * (vhd.blockTable[id] + FullBlockSectors(vhd.header))
    modifies vhd`pending, vhd`blocks, vhd.handler`file, vhd.handler`steps
    ensures ok ==> vhd.Valid() && Patched(old(vhd.handler.file), vhd.handler.file, offset, data)
    ensures ok == (old(vhd.handler.steps) > 0) && old(vhd.handler.steps) - 1 <= vhd.handler.steps
    ensures !ok ==> vhd.Valid() && vhd.handler.file == old(vhd.handler.file)
  {
    ghost var file := vhd.handler.file;
    ok := vhd.handler.Write(offset, data);
    if ok {
      hide Image, Patched;
      WriteInBlock(file, vhd.handler.file, offset, data, vhd.header, vhd.blockTable, vhd.synced, id, vhd.blocks,
                   vhd.pending);
      vhd.blocks, vhd.pending := vhd.blocks - {id}, vhd.pending + {id};
    }
  }

  lemma BlockBytes(h: Header)
    requires ValidBlockSize(h)
    ensures SECTOR * SectorsPerBlock(h.blockSize) == h.blockSize
  {
  }

  lemma ImageSizes(file: Buffer, h: Header, bat: Table, n: nat, blocks: map<nat, Buffer>, pending: set<nat>)
    requires Image(file, h, bat, n, blocks, pending)
    ensures Layout(h, bat) && Sized(h) && ValidBlockSize(h)
    ensures SectorsPerBlock(h.blockSize) <= 8 * SECTOR * SectorsOfBitmap(h.blockSize)
    ensures FullBlockSectors(h) == SectorsPerBlock(h.blockSize) + SectorsOfBitmap(h.blockSize)
  {
    BitmapCovers(h);
  }

  /**
   * Writes the sectors `begin` to `end` of a block and marks them in its bitmap, creating the block if needed.
   * If it stops, all other sectors are as they were, through the table on disk, `stored`, and of the block
   * itself the writes that `reach` names are on disk.
   */
  method WriteBlockSectors(vhd: VhdFile, id: nat, block: Buffer, begin: nat, end: nat)
    returns (ok: bool, ghost stored: Table, ghost reach: Reach)
    requires vhd.Valid() && SectorsStored(vhd.handler.file, vhd.header, vhd.blockTable)
    requires id < vhd.header.maxTableEntries && |block| == SECTOR * SectorsPerBlock(vhd.header.blockSize)
    requires begin <= end <= SectorsPerBlock(vhd.header.blockSize)
    modifies vhd`blockTable, vhd`pending, vhd`blocks, vhd.handler`file, vhd.handler`steps
    ensures ok ==> vhd.Valid() && SectorsStored(vhd.handler.file, vhd.header, vhd.blockTable)
    ensures ok ==> BlockUpdated(old(vhd.handler.file), old(vhd.blockTable), vhd.handler.file, vhd.blockTable,
                                vhd.header, id, begin, end, block)
    ensures ok ==> vhd.DataEnd() <= old(vhd.DataEnd()) + FullBlockSectors(vhd.header)
    ensures ok ==> StillUsed(old(vhd.blockTable), vhd.blockTable)
    ensures !ok ==> vhd.StoredThrough(stored)
    ensures !ok
      ==> BlockStopped(old(vhd.handler.file), old(vhd.blockTable), vhd.handler.file, stored, vhd.header, id, begin, end)
    ensures !ok ==> BlockReached(old(vhd.handler.file), old(vhd.blockTable), vhd.handler.file, stored, vhd.header, id,
                                 begin, end, reach)
    ensures old(vhd.handler.steps) - 3 <= vhd.handler.steps
    ensures old(vhd.Affords(3, FullBlockSectors(vhd.header))) ==> ok
  {
    hide Image, Layout, Patched, BlockUpdated, SectorsStored, OldBitmap, ValidHeader, ValidFooter, SectorsPerBlock,
      SectorsOfBitmap;
    hide FullBlockSectors, Test, Sized, EndSector, BlockStopped, BlockReached;
    ghost var h, file, bat := vhd.header, vhd.handler.file, vhd.blockTable;
    ImageSizes(file, h, bat, vhd.synced, vhd.blocks, vhd.pending);
    var parentBitmap: Buffer;
    ok, parentBitmap := OpenBlock(vhd, id);
    stored, reach := bat, NoWrite;
    if !ok {
      NothingStopped(file, bat, h, id, begin, end);
      return;
    }
    ghost var entered, bat' := vhd.handler.file, vhd.blockTable;
    stored, reach := bat', EntryOnly;
    var blockAddr := vhd.blockTable[id];
    var offset := blockAddr + SectorsOfBitmap(vhd.header.blockSize) + begin;
    BitmapLength(file, bat, h, id, parentBitmap);
    var bitmap := SetRange(parentBitmap, begin, end);
    ok := WriteInside(vhd, id, SECTOR * blockAddr, bitmap);
    if !ok {
      StoppedEntered(file, bat, entered, bat', h, id, begin, end);
      EnteredBlock(file, bat, entered, bat', h, id, begin, end);
      return;
    }
    ghost var mapped := vhd.handler.file;
    ok := WriteInside(vhd, id, SECTOR * offset, block[SECTOR * begin..SECTOR * end]);
    if ok {
      BlockWritten(file, bat, entered, bat', mapped, vhd.handler.file, parentBitmap, bitmap, block, h, id, begin, end);
    } else {
      reach := EntryAndBitmap;
      StoppedMapped(file, bat, entered, bat', mapped, parentBitmap, bitmap, h, id, begin, end);
      MappedBlock(file, bat, entered, bat', mapped, parentBitmap, bitmap, h, id, begin, end);
    }
  }

  ghost predicate StillUsed(bat: Table, bat': Table) { forall j: nat | Used(bat, j) :: Used(bat', j) }

  lemma NothingStopped(file: Buffer, bat: Table, h: Header, id: nat, begin: nat, end: nat)
    ensures BlockStopped(file, bat, file, bat, h, id, begin, end)
    ensures BlockReached(file, bat, file, bat, h, id, begin, end, NoWrite)
  {
  }

  lemma BitmapLength(file: Buffer, bat: Table, h: Header, id: nat, bitmap: Buffer)
    requires OldBitmap(file, bat, h, id, bitmap)
    ensures |bitmap| == SECTOR * SectorsOfBitmap(h.blockSize)
  {
  }

  // ----- any run of sectors ------------------------------------------------------------------------

  /** Which sector of a buffer written at sector `offset` is sector `s` of block `id`, of `n` sectors each. */
  function Index(id: nat, n: nat, s: nat, offset: nat): int { id * n + s - offset }

  predicate Covers(buffer: Buffer, k: int) { 0 <= k && SECTOR * (k + 1) <= |buffer| }

  function SectorOf(buffer: Buffer, k: int): (sector: Buffer)
    requires Covers(buffer, k)
  {
    buffer[SECTOR * k..SECTOR * (k + 1)]
  }

  /**
   * Of the sectors from `offset` on that the buffer covers, those in blocks before `upTo` are present
   * with the buffer's data; every other sector is as it was.
   */
  ghost predicate DataWritten(file: Buffer, bat: Table, after: Buffer, bat': Table, h: Header,
                              offset: nat, buffer: Buffer, upTo: nat)
  {
    forall j: nat, s: nat | s < SectorsPerBlock(h.blockSize) ::
      ReadSector(after, h, bat', j, s) == Expected(file, bat, h, offset, buffer, upTo, j, s)
  }

  function Expected(file: Buffer, bat: Table, h: Header, offset: nat, buffer: Buffer, upTo: nat, j: nat,
                    s: nat): Option<Buffer> {
    var k := Index(j, SectorsPerBlock(h.blockSize), s, offset);
    if j < upTo && Covers(buffer, k) then Some(SectorOf(buffer, k)) else ReadSector(file, h, bat, j, s)
  }

  /**
   * After a write has stopped at block `cur`: the sectors of the other blocks are as the write should have
   * left them so far, and those of `cur` outside the buffer as they were, if it is not a new block.
   */
  ghost predicate DataStopped(file: Buffer, bat: Table, after: Buffer, stored: Table, h: Header,
                              offset: nat, buffer: Buffer, cur: nat)
  {
    forall j: nat, s: nat | s < SectorsPerBlock(h.blockSize)
        && (j != cur || (Used(bat, cur) && !Covers(buffer, Index(cur, SectorsPerBlock(h.blockSize), s, offset)))) ::
      ReadSector(after, h, stored, j, s) == Expected(file, bat, h, offset, buffer, cur, j, s)
  }

  lemma StoppedAt(file: Buffer, bat: Table, mid: Buffer, bat1: Table, after: Buffer, stored: Table, h: Header,
                  offset: nat, buffer: Buffer, id: nat, begin: nat, end: nat, block: Buffer)
    requires DataWritten(file, bat, mid, bat1, h, offset, buffer, id) && StillUsed(bat, bat1)
    requires InputFor(block, buffer, SectorsPerBlock(h.blockSize), offset, id, begin, end)
    requires BlockStopped(mid, bat1, after, stored, h, id, begin, end)
    ensures DataStopped(file, bat, after, stored, h, offset, buffer, id)
  {
    hide ReadSector;
    var n := SectorsPerBlock(h.blockSize);
    forall j: nat, s: nat | s < n && (j != id || (Used(bat, id) && !Covers(buffer, Index(id, n, s, offset))))
      ensures ReadSector(after, h, stored, j, s) == Expected(file, bat, h, offset, buffer, id, j, s)
    {
      assert ReadSector(mid, h, bat1, j, s) == Expected(file, bat, h, offset, buffer, id, j, s);
      if j == id {
        assert Covers(buffer, Index(id, n, s, offset)) <==> begin <= s < end;
      }
    }
  }

  lemma StoppedAfter(file: Buffer, bat: Table, after: Buffer, stored: Table, h: Header, offset: nat, buffer: Buffer,
                     cur: nat)
    requires DataWritten(file, bat, after, stored, h, offset, buffer, cur)
    ensures DataStopped(file, bat, after, stored, h, offset, buffer, cur)
  {
    hide ReadSector;
  }

  lemma NothingWrittenYet(file: Buffer, bat: Table, h: Header, offset: nat, buffer: Buffer, upTo: nat)
    requires Sized(h) && upTo * SectorsPerBlock(h.blockSize) <= offset
    ensures DataWritten(file, bat, file, bat, h, offset, buffer, upTo)
  {
    var n := SectorsPerBlock(h.blockSize);
    hide ReadSector, Sized;
    forall j: nat, s: nat | s < n
      ensures ReadSector(file, h, bat, j, s) == Expected(file, bat, h, offset, buffer, upTo, j, s)
    {
      if j < upTo {
        BlockOrder(j, upTo, n);
      }
    }
  }

  lemma BlockOrder(j: nat, i: nat, n: nat)
    requires j < i
    ensures j * n + n <= i * n
  {
    var k: nat := i - (j + 1);
    assert i * n == (j + 1) * n + k * n;
  }

  /** The buffer ends before block `upTo`. */
  predicate Past(upTo: nat, n: nat, offset: nat, buffer: Buffer) { SECTOR * (upTo * n - offset) >= |buffer| }

  lemma AllWritten(file: Buffer, bat: Table, after: Buffer, bat': Table, h: Header, offset: nat, buffer: Buffer,
                   upTo: nat, all: nat)
    requires Sized(h) && DataWritten(file, bat, after, bat', h, offset, buffer, upTo)
    requires Past(upTo, SectorsPerBlock(h.blockSize), offset, buffer) && upTo <= all
    ensures DataWritten(file, bat, after, bat', h, offset, buffer, all)
  {
    var n := SectorsPerBlock(h.blockSize);
    hide ReadSector, Sized;
    forall j: nat, s: nat | s < n
      ensures ReadSector(after, h, bat', j, s) == Expected(file, bat, h, offset, buffer, all, j, s)
    {
      if j > upTo {
        BlockOrder(upTo, j, n);
      }
    }
  }

  /** The part of the buffer that falls in one block, as the block's sectors `begin` to `end`. */
  ghost predicate InputFor(block: Buffer, buffer: Buffer, n: nat, offset: nat, id: nat, begin: nat, end: nat) {
    && |block| == SECTOR * n && end <= n
    && forall s: nat | s < n ::
         && (begin <= s < end <==> Covers(buffer, Index(id, n, s, offset)))
         && (begin <= s < end ==> SectorOf(block, s) == SectorOf(buffer, Index(id, n, s, offset)))
  }

  lemma OneMoreBlock(file: Buffer, bat: Table, mid: Buffer, bat1: Table, after: Buffer, bat2: Table, h: Header,
                     offset: nat, buffer: Buffer, id: nat, begin: nat, end: nat, block: Buffer)
    requires DataWritten(file, bat, mid, bat1, h, offset, buffer, id)
    requires InputFor(block, buffer, SectorsPerBlock(h.blockSize), offset, id, begin, end)
    requires BlockUpdated(mid, bat1, after, bat2, h, id, begin, end, block)
    ensures DataWritten(file, bat, after, bat2, h, offset, buffer, id + 1)
  {
    var n := SectorsPerBlock(h.blockSize);
    hide ReadSector;
    forall j: nat, s: nat | s < n
      ensures ReadSector(after, h, bat2, j, s) == Expected(file, bat, h, offset, buffer, id + 1, j, s)
    {
      assert ReadSector(mid, h, bat1, j, s) == Expected(file, bat, h, offset, buffer, id, j, s);
      if j == id {
        assert Covers(buffer, Index(id, n, s, offset)) <==> begin <= s < end;
      }
    }
  }

  /** Cuts out of the buffer what falls in one block, zero-filled to a whole block unless it covers it. */
  method InputBuffer(buffer: Buffer, n: nat, offset: nat, id: nat) returns (block: Buffer, begin: nat, end: nat)
    requires n > 0 && |buffer| % SECTOR == 0
    requires id * n < offset + |buffer| / SECTOR && offset < (id + 1) * n
    ensures begin <= end <= n
    ensures InputFor(block, buffer, n, offset, id, begin, end)
  {
    hide InputFor;
    var bufferSizeSectors := |buffer| / SECTOR;
    ghost var first := id * n;
    assert (id + 1) * n == first + n;
    begin := Max(0, offset - id * n);
    end := Min(offset + bufferSizeSectors - id * n, n);
    var startInBuffer := Max(0, (id * n - offset) * SECTOR);
    var endInBuffer := Min(((id + 1) * n - offset) * SECTOR, |buffer|);
    var part := buffer[startInBuffer..endInBuffer];
    if begin == 0 && end == n {
      block := part;
    } else {
      block := Patch(Zeros(n * SECTOR), begin * SECTOR, part);
    }
    assert block[SECTOR * begin..SECTOR * end] == part;
    PartOfBuffer(block, buffer, n, offset, id, begin, end, startInBuffer, endInBuffer);
  }

  lemma PartOfBuffer(block: Buffer, buffer: Buffer, n: nat, offset: nat, id: nat, begin: nat, end: nat, from: nat,
                     to: nat)
    requires n > 0 && |buffer| % SECTOR == 0 && begin <= end <= n && from <= to <= |buffer| && |block| == SECTOR * n
    requires begin == Max(0, offset - id * n) && end == Min(offset + |buffer| / SECTOR - id * n, n)
    requires from == Max(0, (id * n - offset) * SECTOR) && to - from == SECTOR * (end - begin)
    requires block[SECTOR * begin..SECTOR * end] == buffer[from..to]
    ensures InputFor(block, buffer, n, offset, id, begin, end)
  {
    var first := id * n;
    forall s: nat | s < n
      ensures begin <= s < end <==> Covers(buffer, Index(id, n, s, offset))
      ensures begin <= s < end ==> SectorOf(block, s) == SectorOf(buffer, Index(id, n, s, offset))
    {
      if begin <= s < end {
        SubSlice(block, SECTOR * begin, SECTOR * end, SECTOR * (s - begin), SECTOR);
        SubSlice(buffer, from, to, SECTOR * (s - begin), SECTOR);
        assert from + SECTOR * (s - begin) == SECTOR * Index(id, n, s, offset);
      }
    }
  }

  // ----- before and after ------------------------------------------------------------------------------

  /** Full blocks on disk have all their sectors on disk. */
  lemma FullBlocksStoreSectors(file: Buffer, h: Header, bat: Table, n: nat, blocks: map<nat, Buffer>)
    requires Image(file, h, bat, n, blocks, {})
    ensures SectorsStored(file, h, bat)
  {
    hide Marked, IsPowerOfTwo, PackHeader, Synced;
    assert forall id: nat, s: nat | Marked(file, h, bat, id, s) :: Used(bat, id) by {
      MarkedIsUsed(file, h, bat);
    }
    forall id: nat | Used(bat, id) ensures SECTOR * (bat[id] + FullBlockSectors(h)) <= |file| {
      assert Holds(file, h, bat, id, blocks[id]);
    }
  }

  lemma MarkedIsUsed(file: Buffer, h: Header, bat: Table)
    ensures forall id: nat, s: nat | Marked(file, h, bat, id, s) :: Used(bat, id)
  {
  }

  /** The footers are written outside every sector. */
  lemma FootersKeepSectors(file: Buffer, after: Buffer, h: Header, bat: Table, j: nat, s: nat)
    requires Sized(h) && Layout(h, bat) && SectorsStored(file, h, bat) && s < SectorsPerBlock(h.blockSize)
    requires SameData(file, after, SECTOR * EndSector(h, bat, h.maxTableEntries))
    ensures ReadSector(after, h, bat, j, s) == ReadSector(file, h, bat, j, s)
  {
    EndSectorBound(h, bat, h.maxTableEntries);
    BitmapCovers(h);
    if Used(bat, j) {
      UsedInTable(h, bat, j);
      assert FOOTER_SIZE <= EndOfHeaders(h) <= SECTOR * bat[j];
      assert bat[j] + FullBlockSectors(h) <= EndSector(h, bat, h.maxTableEntries);
      assert s / 8 < SECTOR * SectorsOfBitmap(h.blockSize);
      assert after[SECTOR * bat[j] + s / 8] == file[SECTOR * bat[j] + s / 8];
      hide Layout, BitOf, EndSector;
      var p := SectorPosition(h, bat, j, s);
      if Marked(file, h, bat, j, s) {
        assert after[p..p + SECTOR] == file[p..p + SECTOR];
      }
    }
  }

  lemma FootersKeepData(file: Buffer, bat: Table, mid: Buffer, after: Buffer, bat': Table, h: Header,
                        offset: nat, buffer: Buffer, upTo: nat)
    requires DataWritten(file, bat, mid, bat', h, offset, buffer, upTo)
    requires Sized(h) && Layout(h, bat') && SectorsStored(mid, h, bat')
    requires SameData(mid, after, SECTOR * EndSector(h, bat', h.maxTableEntries))
    ensures DataWritten(file, bat, after, bat', h, offset, buffer, upTo)
  {
    hide ReadSector, Layout, SectorsStored, SameData, EndSector, Expected, Sized;
    forall j: nat, s: nat | s < SectorsPerBlock(h.blockSize)
      ensures ReadSector(after, h, bat', j, s) == Expected(file, bat, h, offset, buffer, upTo, j, s)
    {
      FootersKeepSectors(mid, after, h, bat', j, s);
    }
  }

  /** What the file holds in each block. */
  function StoredBlocks(file: Buffer, h: Header, bat: Table): map<nat, Buffer> {
    map id: nat | 0 <= id < |bat| && Used(bat, id) && 0 <= bat[id] && SECTOR * (bat[id] + FullBlockSectors(h)) <= |file|
      :: file[SECTOR * bat[id]..SECTOR * (bat[id] + FullBlockSectors(h))]
  }

  /** Once the file reaches the end of data every block is whole again. */
  lemma WholeAgain(file: Buffer, h: Header, bat: Table, n: nat, blocks: map<nat, Buffer>, pending: set<nat>)
    requires Image(file, h, bat, n, blocks, pending) && SECTOR * EndSector(h, bat, h.maxTableEntries) <= |file|
    ensures Image(file, h, bat, n, StoredBlocks(file, h, bat), {})
  {
    var stored := StoredBlocks(file, h, bat);
    EndSectorBound(h, bat, h.maxTableEntries);
    forall id: nat | Used(bat, id) ensures id in stored {
      UsedInTable(h, bat, id);
      assert bat[id] + FullBlockSectors(h) <= EndSector(h, bat, h.maxTableEntries);
    }
  }

  function LastBlock(offset: nat, buffer: Buffer, n: nat): int
    requires n > 0
  {
    CeilDiv(offset + CeilDiv(|buffer|, SECTOR), n) - 1
  }

  function StartBlock(offset: nat, n: nat): nat
    requires n > 0
  {
    offset / n
  }

  /** Block `id` meets the buffer, or the place where an empty buffer would start. */
  predicate InRange(offset: nat, buffer: Buffer, n: nat, id: nat) {
    id * n < offset + |buffer| / SECTOR && offset < (id + 1) * n
  }

  lemma BlockInRange(offset: nat, buffer: Buffer, n: nat, id: nat)
    requires n > 0 && |buffer| % SECTOR == 0 && StartBlock(offset, n) <= id <= LastBlock(offset, buffer, n)
    ensures InRange(offset, buffer, n, id)
  {
    var end := offset + |buffer| / SECTOR;
    assert CeilDiv(|buffer|, SECTOR) == |buffer| / SECTOR;
    var q := CeilDiv(end, n);
    assert n * (q - 1) < end;
    Times(id, q - 1, n);
    assert offset < (offset / n + 1) * n;
    Times(offset / n + 1, id + 1, n);
  }

  lemma Times(a: int, b: int, n: nat)
    requires a <= b
    ensures a * n <= b * n
  {
    assert (b - a) * n >= 0;
  }

  lemma AfterLastBlock(offset: nat, buffer: Buffer, n: nat)
    requires n > 0 && |buffer| % SECTOR == 0
    ensures LastBlock(offset, buffer, n) >= -1 && Past(LastBlock(offset, buffer, n) + 1, n, offset, buffer)
  {
    assert CeilDiv(|buffer|, SECTOR) == |buffer| / SECTOR;
  }

  lemma FirstBlock(offset: nat, n: nat)
    requires n > 0
    ensures offset / n * n <= offset
  {
  }

  lemma StartOfData(file: Buffer, h: Header, bat: Table, k: nat, blocks: map<nat, Buffer>, offset: nat, buffer: Buffer)
    requires Image(file, h, bat, k, blocks, {})
    ensures SectorsStored(file, h, bat) && Layout(h, bat) && Sized(h) && SectorsPerBlock(h.blockSize) > 0
    ensures DataWritten(file, bat, file, bat, h, offset, buffer, StartBlock(offset, SectorsPerBlock(h.blockSize)))
  {
    FullBlocksStoreSectors(file, h, bat, k, blocks);
    FirstBlock(offset, SectorsPerBlock(h.blockSize));
    NothingWrittenYet(file, bat, h, offset, buffer, StartBlock(offset, SectorsPerBlock(h.blockSize)));
  }

  lemma NoGrowth(h: Header, length: nat, entries: nat)
    requires entries <= h.maxTableEntries
    ensures CanGrow(h, length, entries)
  {
  }

  /** The footers, after which every block is whole again. */
  method FinishData(vhd: VhdFile, ghost file: Buffer, ghost bat: Table, ghost offset: nat, ghost buffer: Buffer,
                    ghost upTo: nat)
    returns (ok: bool)
    requires vhd.Valid() && SectorsStored(vhd.handler.file, vhd.header, vhd.blockTable)
    requires Layout(vhd.header, vhd.blockTable) && Sized(vhd.header)
    requires DataWritten(file, bat, vhd.handler.file, vhd.blockTable, vhd.header, offset, buffer, upTo)
    modifies vhd`blocks, vhd`pending, vhd.handler`file, vhd.handler`steps
    ensures vhd.Valid() && (ok ==> vhd.pending == {})
    ensures DataWritten(file, bat, vhd.handler.file, vhd.blockTable, vhd.header, offset, buffer, upTo)
    ensures old(vhd.handler.steps) >= 2 ==> ok
    ensures ok ==> vhd.FooterAtStart() && At(vhd.handler.file, |vhd.handler.file| - FOOTER_SIZE, PackFooter(vhd.footer))
  {
    hide Image, Layout, SectorsStored, DataWritten, Sized, PackFooter, SameData, EndSector, StoredBlocks, ValidFooter;
    ghost var mid := vhd.handler.file;
    ok := vhd.WriteFooter(false);
    FootersKeepData(file, bat, mid, vhd.handler.file, vhd.blockTable, vhd.header, offset, buffer, upTo);
    if ok {
      WholeAgain(vhd.handler.file, vhd.header, vhd.blockTable, vhd.synced, vhd.blocks, vhd.pending);
      vhd.blocks, vhd.pending := StoredBlocks(vhd.handler.file, vhd.header, vhd.blockTable), {};
    }
  }

  lemma StartBeforeEnd(offset: nat, buffer: Buffer, n: nat)
    requires n > 0
    ensures StartBlock(offset, n) <= LastBlock(offset, buffer, n) + 1
  {
    var q := CeilDiv(offset + CeilDiv(|buffer|, SECTOR), n);
    assert offset <= n * q;
    FirstBlock(offset, n);
    if offset / n > q {
      BlockOrder(q, offset / n, n);
    }
  }

  /** The sectors of `n` blocks. */
  function Blocks(h: Header, n: nat): nat { n * FullBlockSectors(h) }

  lemma OneBlockMore(h: Header, n: nat)
    ensures Blocks(h, n + 1) == Blocks(h, n) + FullBlockSectors(h) && Blocks(h, 0) == 0
  {
  }

  lemma MoreBlocks(h: Header, m: nat, n: nat)
    requires m <= n
    ensures Blocks(h, m) + Blocks(h, n - m) == Blocks(h, n)
  {
  }

  /**
   * The loop over the blocks that the buffer touches. If it stops, `stored` is the table on disk and
   * `cur` the block it stopped at.
   */
  method WriteBlocks(vhd: VhdFile, offset: nat, buffer: Buffer, startBlock: nat, endBlock: nat, ghost file: Buffer,
                     ghost bat: Table)
    returns (ok: bool, ghost stored: Table, ghost cur: nat)
    requires vhd.Valid() && SectorsStored(vhd.handler.file, vhd.header, vhd.blockTable)
    requires Layout(vhd.header, vhd.blockTable) && |buffer| % SECTOR == 0 && vhd.blockTable == bat
    requires startBlock <= endBlock <= vhd.header.maxTableEntries
    requires forall id: nat | startBlock <= id < endBlock ::
      InRange(offset, buffer, SectorsPerBlock(vhd.header.blockSize), id)
    requires DataWritten(file, bat, vhd.handler.file, vhd.blockTable, vhd.header, offset, buffer, startBlock)
    modifies vhd`blockTable, vhd`pending, vhd`blocks, vhd.handler`file, vhd.handler`steps
    ensures ok ==> vhd.Valid() && SectorsStored(vhd.handler.file, vhd.header, vhd.blockTable)
    ensures ok ==> DataWritten(file, bat, vhd.handler.file, vhd.blockTable, vhd.header, offset, buffer, endBlock)
    ensures !ok ==> vhd.StoredThrough(stored) && startBlock <= cur < endBlock
    ensures !ok ==> DataStopped(file, bat, vhd.handler.file, stored, vhd.header, offset, buffer, cur)
    ensures ok ==> vhd.handler.steps + 3 * (endBlock - startBlock) >= old(vhd.handler.steps)
    ensures old(vhd.Affords(3 * (endBlock - startBlock), Blocks(vhd.header, endBlock - startBlock))) ==> ok
  {
    hide BlockReached, Image, Layout, SectorsStored, DataWritten, ValidFooter, BlockUpdated, InputFor, BlockStopped,
      DataStopped, EndSector, FullBlockSectors, Blocks, SectorsPerBlock;
    ghost var h := vhd.header;
    var n := SectorsPerBlock(vhd.header.blockSize);
    SomeSectors(vhd);
    OneBlockMore(h, 0);
    ok, stored, cur := true, bat, startBlock;
    for currentBlock := startBlock to endBlock
      invariant vhd.Valid() && vhd.header == h
      invariant SectorsStored(vhd.handler.file, h, vhd.blockTable)
      invariant DataWritten(file, bat, vhd.handler.file, vhd.blockTable, h, offset, buffer, currentBlock)
      invariant StillUsed(bat, vhd.blockTable)
      invariant vhd.handler.steps + 3 * (currentBlock - startBlock) >= old(vhd.handler.steps)
      invariant vhd.DataEnd() <= old(vhd.DataEnd()) + Blocks(h, currentBlock - startBlock)
    {
      assert InRange(offset, buffer, n, currentBlock);
      var inputBuffer, begin, end := InputBuffer(buffer, n, offset, currentBlock);
      ghost var mid, bat1 := vhd.handler.file, vhd.blockTable;
      InputLength(inputBuffer, buffer, n, offset, currentBlock, begin, end);
      OneBlockMore(h, currentBlock - startBlock);
      MoreBlocks(h, currentBlock - startBlock + 1, endBlock - startBlock);
      ghost var reach;
      ok, stored, reach := WriteBlockSectors(vhd, currentBlock, inputBuffer, begin, end);
      cur := currentBlock;
      if !ok {
        StoppedAt(file, bat, mid, bat1, vhd.handler.file, stored, h, offset, buffer, currentBlock, begin, end,
                  inputBuffer);
        return;
      }
      OneMoreBlock(file, bat, mid, bat1, vhd.handler.file, vhd.blockTable, h, offset, buffer, currentBlock, begin, end,
                   inputBuffer);
    }
  }

  lemma SomeSectors(vhd: VhdFile)
    requires vhd.Valid()
    ensures SectorsPerBlock(vhd.header.blockSize) > 0
  {
  }

  lemma InputLength(block: Buffer, buffer: Buffer, n: nat, offset: nat, id: nat, begin: nat, end: nat)
    requires InputFor(block, buffer, n, offset, id, begin, end)
    ensures |block| == SECTOR * n && end <= n
  {
  }

  /** How many blocks a write touches. */
  function Touched(offset: nat, buffer: Buffer, n: nat): int
    requires n > 0
  {
    LastBlock(offset, buffer, n) + 1 - StartBlock(offset, n)
  }

  /** Three writes for each block that a write touches, and the footers; and room for all of these blocks. */
  ghost predicate CanWrite(vhd: VhdFile, offset: nat, buffer: Buffer)
    requires vhd.Valid()
    reads vhd, vhd.handler
  {
    var n := SectorsPerBlock(vhd.header.blockSize);
    n > 0 && Touched(offset, buffer, n) >= 0
    && vhd.Affords(3 * Touched(offset, buffer, n) + 2, Blocks(vhd.header, Touched(offset, buffer, n)))
  }

  /**
   * Writes whole sectors from sector `offsetSectors` on, all within the existing table: exactly those
   * sectors become present with the buffer's data, whatever was there before, and every other sector
   * keeps its presence and its data. If it stops, that is so of all blocks but one.
   */
  method WriteData(vhd: VhdFile, offsetSectors: nat, buffer: Buffer)
    returns (ok: bool, ghost stored: Table, ghost cur: nat)
    requires vhd.Valid() && vhd.pending == {} && |buffer| % SECTOR == 0
    requires LastBlock(offsetSectors, buffer, SectorsPerBlock(vhd.header.blockSize)) < vhd.header.maxTableEntries
    modifies vhd, vhd.handler`file, vhd.handler`steps
    ensures vhd.header == old(vhd.header) && vhd.footer == old(vhd.footer)
    ensures ok ==> vhd.Valid() && vhd.pending == {}
    ensures ok ==> DataWritten(old(vhd.handler.file), old(vhd.blockTable), vhd.handler.file, vhd.blockTable,
                               vhd.header, offsetSectors, buffer, vhd.header.maxTableEntries)
    ensures ok ==> vhd.FooterAtStart() && At(vhd.handler.file, |vhd.handler.file| - FOOTER_SIZE, PackFooter(vhd.footer))
    ensures !ok ==> vhd.StoredThrough(stored)
    ensures !ok ==> DataStopped(old(vhd.handler.file), old(vhd.blockTable), vhd.handler.file, stored,
                                vhd.header, offsetSectors, buffer, cur)
    ensures old(CanWrite(vhd, offsetSectors, buffer)) ==> ok
  {
    hide Image, Layout, SectorsStored, DataWritten, ValidHeader, CanGrow, PackFooter, ValidFooter, Sized, LastBlock,
      StartBlock, InRange, Past, SectorsPerBlock, DataStopped, EndSector, Blocks, At, DiskImage, SameStart, StepsToGrow,
      RoomToGrow, BatSize;
    ghost var h, file, bat := vhd.header, vhd.handler.file, vhd.blockTable;
    var n := SectorsPerBlock(vhd.header.blockSize);
    StartOfData(file, h, bat, vhd.synced, vhd.blocks, offsetSectors, buffer);
    var startBlock, lastBlock := StartBlock(offsetSectors, n), LastBlock(offsetSectors, buffer, n);
    StartBeforeEnd(offsetSectors, buffer, n);
    NoGrowth(h, |bat|, Max(0, lastBlock));
    ok := vhd.EnsureBatSize(Max(0, lastBlock));
    forall id: nat | startBlock <= id < lastBlock + 1 ensures InRange(offsetSectors, buffer, n, id) {
      BlockInRange(offsetSectors, buffer, n, id);
    }
    ok, stored, cur := WriteBlocks(vhd, offsetSectors, buffer, startBlock, lastBlock + 1, file, bat);
    if !ok {
      return;
    }
    ImageBasics(vhd.handler.file, h, vhd.blockTable, vhd.synced, vhd.blocks, vhd.pending);
    AfterLastBlock(offsetSectors, buffer, n);
    ok := FinishData(vhd, file, bat, offsetSectors, buffer, lastBlock + 1);
    if ok {
      AllWritten(file, bat, vhd.handler.file, vhd.blockTable, h, offsetSectors, buffer, lastBlock + 1,
                 h.maxTableEntries);
    } else {
      stored, cur := vhd.blockTable, lastBlock + 1;
      StoppedAfter(file, bat, vhd.handler.file, stored, h, offsetSectors, buffer, cur);
    }
  }
}
