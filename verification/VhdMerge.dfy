/**
 * Merging a child into its parent, a VHD file whose table is already long enough, with a merge state
 * on the side that lets an interrupted merge be resumed. Blocks of a file are merged one at a time.
 */
module VhdMerge {
  import opened Options
  import opened Bytes
  import opened VhdFormat
  import opened VhdLayout
  import opened Storage
  import opened VhdFile

  type Blocks = map<nat, Buffer>

  // ----- what a resumed merge relies on ---------------------------------------------------------

  /**
   * Of the child's blocks, those below `currentBlock` are merged and the others may be in any state;
   * every other block is as it was before the merge.
   */
  ghost predicate Progress(blocks: Blocks, pending: set<nat>, base: Blocks, child: Blocks, currentBlock: nat) {
    && (forall id | id in pending :: id in child && id >= currentBlock)
    && (forall id: nat | id !in child :: (id in blocks <==> id in base) && (id in blocks ==> blocks[id] == base[id]))
    && (forall id | id in child && id < currentBlock :: id in blocks && blocks[id] == child[id])
  }

  /** A late state write may bring back an older `currentBlock`: nothing is lost. */
  lemma OlderStateIsSafe(blocks: Blocks, pending: set<nat>, base: Blocks, child: Blocks, older: nat, newer: nat)
    requires Progress(blocks, pending, base, child, newer) && older <= newer
    ensures Progress(blocks, pending, base, child, older)
  {
  }

  lemma MergedCompletely(blocks: Blocks, pending: set<nat>, base: Blocks, child: Blocks, currentBlock: nat)
    requires Progress(blocks, pending, base, child, currentBlock)
    requires forall id | id in child :: id < currentBlock
    ensures blocks == base + child && pending == {}
  {
  }

  // ----- room ------------------------------------------------------------------------------------

  /** How many of the child's blocks below `n` have no address in the parent. */
  function Missing(child: set<nat>, bat: Table, n: nat): (m: nat)
    ensures m <= n
  {
    if n == 0 then 0
    else Missing(child, bat, n - 1) + if n - 1 in child && !Used(bat, n - 1) then 1 else 0
  }

  /** Every block still to be created gets a sector number that fits its 32-bit table entry. */
  predicate Room(h: Header, bat: Table, child: set<nat>)
    requires h.maxTableEntries <= |bat| && forall i | 0 <= i < |bat| :: 0 <= bat[i]
  {
    EndSector(h, bat, h.maxTableEntries) + Missing(child, bat, h.maxTableEntries) * FullBlockSectors(h) < BLOCK_UNUSED
  }

  /** There is room if there would be for as many blocks as the table has entries. */
  lemma RoomEnough(h: Header, bat: Table, child: set<nat>)
    requires h.maxTableEntries <= |bat| && forall i | 0 <= i < |bat| :: 0 <= bat[i]
    requires EndSector(h, bat, h.maxTableEntries)
      + h.maxTableEntries * (h.blockSize / 512 + SectorsOfBitmap(h.blockSize)) < 0xFFFF_FFFF
    ensures Room(h, bat, child)
  {
    AtMost(Missing(child, bat, h.maxTableEntries), h.maxTableEntries, FullBlockSectors(h));
  }

  lemma AtMost(m: nat, n: nat, s: nat)
    requires m <= n
    ensures m * s <= n * s
  {
    var spare: nat := n - m;
    assert n * s == m * s + spare * s;
  }

  lemma {:induction false} EndSectorCongruent(h: Header, bat: Table, bat': Table, n: nat)
    requires n <= |bat| && n <= |bat'| && bat[..n] == bat'[..n]
    requires forall i | 0 <= i < |bat| :: 0 <= bat[i]
    requires forall i | 0 <= i < |bat'| :: 0 <= bat'[i]
    ensures EndSector(h, bat, n) == EndSector(h, bat', n)
  {
    if n > 0 {
      assert bat[n - 1] == bat[..n][n - 1] == bat'[n - 1];
      assert bat[..n - 1] == bat[..n][..n - 1] == bat'[..n - 1];
      EndSectorCongruent(h, bat, bat', n - 1);
    }
  }

  /** Giving an unused entry the sector `s` makes the end of data that of the new block, if that is further. */
  lemma {:induction false} EndSectorAssign(h: Header, bat: Table, id: nat, s: nat, n: nat)
    requires n <= |bat| && id < |bat| && bat[id] == BLOCK_UNUSED && s != BLOCK_UNUSED
    requires forall i | 0 <= i < |bat| :: 0 <= bat[i]
    ensures EndSector(h, bat[id := s], n)
      == if id < n then Max(EndSector(h, bat, n), s + FullBlockSectors(h)) else EndSector(h, bat, n)
  {
    if n > 0 {
      EndSectorAssign(h, bat, id, s, n - 1);
    }
  }

  lemma {:induction false} MissingAssign(child: set<nat>, bat: Table, id: nat, s: nat, n: nat)
    requires id < |bat| && bat[id] == BLOCK_UNUSED && s != BLOCK_UNUSED
    ensures Missing(child, bat[id := s], n) == Missing(child, bat, n) - if id < n && id in child then 1 else 0
  {
    if n > 0 {
      MissingAssign(child, bat, id, s, n - 1);
      assert n - 1 != id ==> Used(bat[id := s], n - 1) == Used(bat, n - 1);
    }
  }

  /** Creating one of the child's blocks uses exactly the room that was counted for it. */
  lemma CreatingKeepsRoom(h: Header, bat: Table, child: set<nat>, id: nat)
    requires h.maxTableEntries <= |bat| && forall i | 0 <= i < |bat| :: 0 <= bat[i]
    requires Room(h, bat, child) && id in child && id < h.maxTableEntries && bat[id] == BLOCK_UNUSED
    ensures EndSector(h, bat, h.maxTableEntries) < BLOCK_UNUSED
    ensures Room(h, bat[id := EndSector(h, bat, h.maxTableEntries)], child)
  {
    hide FullBlockSectors, EndSector, Missing;
    var n, s := h.maxTableEntries, EndSector(h, bat, h.maxTableEntries);
    var m, size := Missing(child, bat, n), FullBlockSectors(h);
    EndSectorAssign(h, bat, id, s, n);
    MissingAssign(child, bat, id, s, n);
    OneLess(s, m, size);
  }

  lemma OneLess(end: int, m: nat, size: nat)
    requires end + m * size < BLOCK_UNUSED
    ensures end < BLOCK_UNUSED
    ensures m > 0 ==> end + size + (m - 1) * size < BLOCK_UNUSED
  {
    if m > 0 {
      assert m * size == (m - 1) * size + size;
    }
  }

  /** Room depends on the announced entries only. */
  lemma RoomCongruent(h: Header, bat: Table, bat': Table, child: set<nat>)
    requires h.maxTableEntries <= |bat| && h.maxTableEntries <= |bat'|
    requires bat[..h.maxTableEntries] == bat'[..h.maxTableEntries]
    requires forall i | 0 <= i < |bat| :: 0 <= bat[i]
    requires forall i | 0 <= i < |bat'| :: 0 <= bat'[i]
    requires Room(h, bat, child)
    ensures Room(h, bat', child)
  {
    EndSectorCongruent(h, bat, bat', h.maxTableEntries);
    MissingCongruent(child, bat, bat', h.maxTableEntries);
  }

  lemma {:induction false} MissingCongruent(child: set<nat>, bat: Table, bat': Table, n: nat)
    requires n <= |bat| && n <= |bat'| && bat[..n] == bat'[..n]
    ensures Missing(child, bat, n) == Missing(child, bat', n)
  {
    if n > 0 {
      assert bat[n - 1] == bat[..n][n - 1] == bat'[n - 1];
      assert bat[..n - 1] == bat[..n][..n - 1] == bat'[..n - 1];
      MissingCongruent(child, bat, bat', n - 1);
    }
  }

  // ----- the job -----------------------------------------------------------------------------------

  /** What does not change during a merge, however often it is interrupted. */
  datatype Job = Job(
    header: Header, footer: Footer, base: Blocks, // the parent before the merge
    childHeader: Header, childFooter: Footer, child: Blocks
  )

  /** The parent's footer once it describes the child's disk. */
  function MergedFooter(parent: Footer, child: Footer): Footer {
    parent.(
      currentSize := child.currentSize, diskGeometry := child.diskGeometry, originalSize := child.originalSize,
      timestamp := child.timestamp, uuid := child.uuid)
  }

  /** The conditions a first run checks before touching anything. */
  predicate Chained(j: Job)
    requires ValidHeader(j.childHeader)
  {
    && j.childHeader.parent[..16] == j.footer.uuid
    && j.childFooter.diskType == DIFFERENCING
    && j.childHeader.blockSize == j.header.blockSize
  }

  /** Valid parts, disks that fit their tables, and a parent table that need not grow. */
  ghost predicate Sound(j: Job) {
    && ValidHeader(j.header) && ValidHeader(j.childHeader) && ValidFooter(j.footer) && ValidFooter(j.childFooter)
    && FitsDisk(j.header, j.footer) && FitsDisk(j.childHeader, j.childFooter)
    && j.childHeader.maxTableEntries <= j.header.maxTableEntries
    && forall id | id in j.child :: id < j.childHeader.maxTableEntries
  }

  ghost predicate StartFooter(file: Buffer, j: Job)
    requires Sound(j)
  {
    At(file, 0, PackFooter(j.footer)) || At(file, 0, PackFooter(MergedFooter(j.footer, j.childFooter)))
  }

  ghost predicate StateFits(state: MergeState, j: Job, blocks: Blocks, pending: set<nat>)
    requires Sound(j)
  {
    && state.parentHeader == HeaderChecksum(j.header) && state.childHeader == HeaderChecksum(j.childHeader)
    && Chained(j) && Progress(blocks, pending, j.base, j.child, state.currentBlock)
  }

  ghost predicate RoomOnDisk(file: Buffer, j: Job) {
    && j.header.tableOffset + 4 * j.header.maxTableEntries <= |file|
    && Room(j.header, DiskTable(file, j.header.tableOffset, j.header.maxTableEntries), j.child.Keys)
  }

  /** What storage holds before a merge starts, and wherever it may stop. */
  ghost predicate Resumable(file: Buffer, state: Option<MergeState>, j: Job, blocks: Blocks, pending: set<nat>) {
    && Sound(j)
    && DiskImage(file, j.header, blocks, pending) && RoomOnDisk(file, j) && StartFooter(file, j)
    && match state
       case Some(state) => StateFits(state, j, blocks, pending)
       case None =>
         && blocks == j.base && pending == {}
         && At(file, 0, PackFooter(j.footer)) && At(file, |file| - FOOTER_SIZE, PackFooter(j.footer))
  }

  /** The merged disk, complete with both footers. */
  ghost predicate Merged(file: Buffer, j: Job) {
    && Sound(j) && var footer := MergedFooter(j.footer, j.childFooter);
    && DiskImage(file, j.header, j.base + j.child, {})
    && At(file, 0, PackFooter(footer)) && At(file, |file| - FOOTER_SIZE, PackFooter(footer))
  }

  lemma LongerTableFits(entries: nat, more: nat, blockSize: nat, size: nat)
    requires entries <= more && entries * blockSize >= size
    ensures more * blockSize >= size
  {
    assert (more - entries) * blockSize >= 0;
  }

  /** Whichever footer stands first, the file opens: with the second footer checked when there is no state. */
  lemma StillOpens(file: Buffer, state: Option<MergeState>, j: Job, blocks: Blocks, pending: set<nat>)
    requires Resumable(file, state, j, blocks, pending)
    ensures Readable(file, state.None?)
    ensures var f := UnpackFooter(file[..FOOTER_SIZE]).value;
      && (f == j.footer || f == MergedFooter(j.footer, j.childFooter))
      && (state.None? ==> f == j.footer)
      && UnpackHeader(file[FOOTER_SIZE..FOOTER_SIZE + HEADER_SIZE], f) == Some(j.header)
  {
    hide Image, PackFooter, UnpackFooter, UnpackHeader, PackHeader, Readable;
    if At(file, 0, PackFooter(j.footer)) {
      OpensAsWritten(file, j.header, j.footer, blocks, pending);
    } else {
      LongerTableFits(j.childHeader.maxTableEntries, j.header.maxTableEntries, j.header.blockSize,
                      j.childFooter.currentSize);
      OpensAsWritten(file, j.header, MergedFooter(j.footer, j.childFooter), blocks, pending);
    }
  }

  // ----- one block ------------------------------------------------------------------------------------

  /** The parent as opened for merging, all of the child's blocks below `done` merged. */
  ghost predicate Live(file: Buffer, bat: Table, blocks: Blocks, pending: set<nat>, j: Job, done: nat) {
    && Sound(j) && Image(file, j.header, bat, j.header.maxTableEntries, blocks, pending)
    && Progress(blocks, pending, j.base, j.child, done)
    && Layout(j.header, bat) && Room(j.header, bat, j.child.Keys)
    && StartFooter(file, j)
  }

  ghost predicate Opened(parent: VhdFile, j: Job)
    reads parent`header, parent`synced, parent`footer
  {
    && parent.header == j.header && parent.synced == j.header.maxTableEntries
    && (parent.footer == j.footer || parent.footer == MergedFooter(j.footer, j.childFooter))
  }

  ghost predicate IsChild(child: VhdFile, parent: VhdFile, j: Job)
    reads child, child.handler
  {
    && child != parent && child.handler != parent.handler && child.Valid() && child.pending == {}
    && child.header == j.childHeader && child.footer == j.childFooter && child.blocks == j.child
  }

  /** Room in the table of a process is room in the table on disk. */
  lemma RoomReachesDisk(file: Buffer, j: Job, bat: Table, blocks: Blocks, pending: set<nat>)
    requires Image(file, j.header, bat, j.header.maxTableEntries, blocks, pending)
    requires Room(j.header, bat, j.child.Keys)
    ensures DiskImage(file, j.header, blocks, pending) && RoomOnDisk(file, j)
  {
    ImageOnDisk(file, j.header, bat, blocks, pending);
    var disk := DiskTable(file, j.header.tableOffset, j.header.maxTableEntries);
    assert disk == bat[..j.header.maxTableEntries] == disk[..j.header.maxTableEntries];
    hide Image, DiskImage, EndSector, Missing, Room;
    RoomCongruent(j.header, bat, disk, j.child.Keys);
  }

  lemma StartKept(a: Buffer, b: Buffer, j: Job)
    requires Sound(j) && StartFooter(a, j) && SameStart(a, b)
    ensures StartFooter(b, j)
  {
    assert a[0..FOOTER_SIZE] == a[..FOOTER_SIZE] && b[0..FOOTER_SIZE] == b[..FOOTER_SIZE];
  }

  lemma ProgressOnBlock(blocks: Blocks, pending: set<nat>, base: Blocks, child: Blocks, done: nat, id: nat)
    requires Progress(blocks, pending, base, child, done) && id in child && done <= id
    ensures Progress(blocks - {id}, pending + {id}, base, child, done)
    ensures Progress(blocks[id := child[id]], pending - {id}, base, child, done)
    ensures (forall k | k in child && k < id :: k < done)
      ==> Progress(blocks[id := child[id]], pending - {id}, base, child, id + 1)
  {
  }

  lemma RoomForBlock(h: Header, bat: Table, child: set<nat>, id: nat)
    requires Layout(h, bat) && Room(h, bat, child) && id in child && id < h.maxTableEntries
    ensures EndSector(h, bat, h.maxTableEntries) < BLOCK_UNUSED
    ensures !Used(bat, id) ==> Room(h, bat[id := EndSector(h, bat, h.maxTableEntries)], child)
  {
    hide EndSector, Missing, FullBlockSectors;
    OneLess(EndSector(h, bat, h.maxTableEntries), Missing(child, bat, h.maxTableEntries), FullBlockSectors(h));
    if !Used(bat, id) {
      CreatingKeepsRoom(h, bat, child, id);
    }
  }

  /** Where an interruption leaves the disk. */
  ghost predicate Halted(file: Buffer, j: Job, blocks: Blocks, pending: set<nat>)
    requires Sound(j)
  {
    DiskImage(file, j.header, blocks, pending) && RoomOnDisk(file, j) && StartFooter(file, j)
  }

  /** The two outcomes of writing one block, from what the block allocator promises. */
  lemma BlockOutcome(file: Buffer, after: Buffer, bat: Table, table: Table, blocks: Blocks, pending: set<nat>,
                     j: Job, done: nat, id: nat)
    requires Live(file, bat, blocks, pending, j, done) && SameStart(file, after)
    requires id in j.child && done <= id && forall k | k in j.child && k < id :: k < done
    requires table == bat || (!Used(bat, id) && table == bat[id := EndSector(j.header, bat, j.header.maxTableEntries)])
    ensures Image(after, j.header, table, j.header.maxTableEntries, blocks[id := j.child[id]], pending - {id})
      ==> Live(after, table, blocks[id := j.child[id]], pending - {id}, j, id + 1)
    ensures Image(after, j.header, table, j.header.maxTableEntries, blocks - {id}, pending + {id})
      ==> Halted(after, j, blocks - {id}, pending + {id})
  {
    RoomForBlock(j.header, bat, j.child.Keys, id);
    ProgressOnBlock(blocks, pending, j.base, j.child, done, id);
    StartKept(file, after, j);
    hide Image, DiskImage, RoomOnDisk, Room, EndSector, Progress, StartFooter, Layout;
    if Image(after, j.header, table, j.header.maxTableEntries, blocks - {id}, pending + {id}) {
      RoomReachesDisk(after, j, table, blocks - {id}, pending + {id});
    }
    if Image(after, j.header, table, j.header.maxTableEntries, blocks[id := j.child[id]], pending - {id}) {
      ImageBasics(after, j.header, table, j.header.maxTableEntries, blocks[id := j.child[id]], pending - {id});
    }
  }

  /** The child's block has the length the parent stores. */
  lemma ChildBlock(child: VhdFile, parent: VhdFile, j: Job, id: nat)
    requires IsChild(child, parent, j) && Sound(j) && Chained(j) && id in j.child
    ensures id < j.header.maxTableEntries && |j.child[id]| == SECTOR * FullBlockSectors(j.header)
  {
    assert Holds(child.handler.file, child.header, child.blockTable, id, child.blocks[id]);
  }

  /**
   * Merges one block of the child. An interruption leaves all other blocks as they were, and this one
   * either as it was or with an address but no data.
   */
  method MergeBlock(parent: VhdFile, child: VhdFile, id: nat, ghost j: Job, ghost done: nat) returns (ok: bool)
    requires Opened(parent, j) && IsChild(child, parent, j) && Chained(j)
    requires Live(parent.handler.file, parent.blockTable, parent.blocks, parent.pending, j, done)
    requires id in j.child && done <= id && forall k | k in j.child && k < id :: k < done
    modifies parent`blockTable, parent`pending, parent`blocks, parent.handler`file, parent.handler`steps
    ensures ok ==> Live(parent.handler.file, parent.blockTable, parent.blocks, parent.pending, j, id + 1)
    ensures ok
      ==> parent.blocks == old(parent.blocks)[id := j.child[id]] && parent.pending == old(parent.pending) - {id}
    ensures !ok ==> parent.blocks == old(parent.blocks) - {id} && parent.pending == old(parent.pending) + {id}
    ensures !ok ==> Halted(parent.handler.file, j, parent.blocks, parent.pending)
    ensures old(parent.handler.steps) - 2 <= parent.handler.steps <= old(parent.handler.steps)
    ensures old(parent.handler.steps) >= 2 ==> ok
    ensures old(parent.handler.steps) == 0 ==> !ok && parent.handler.file == old(parent.handler.file)
  {
    hide Image, Layout, Room, Sound, StartFooter, FullBlockSectors, EndSector, Live, PackFooter, Chained, Progress,
      ValidFooter;
    ghost var file, bat := parent.handler.file, parent.blockTable;
    LiveParent(file, bat, parent.blocks, parent.pending, j, done, id);
    ChildBlock(child, parent, j, id);
    ghost var table := parent.AllocatedTable(id);
    var block := child.ReadBlock(id);
    ok := parent.WriteEntireBlock(id, block.value);
    BlockOutcome(file, parent.handler.file, bat, table, old(parent.blocks), old(parent.pending), j, done, id);
    BlockOutcome(file, parent.handler.file, bat, bat, old(parent.blocks), old(parent.pending), j, done, id);
  }

  lemma LiveParent(file: Buffer, bat: Table, blocks: Blocks, pending: set<nat>, j: Job, done: nat, id: nat)
    requires Live(file, bat, blocks, pending, j, done) && id in j.child
    ensures Sound(j) && ValidFooter(j.footer) && ValidFooter(MergedFooter(j.footer, j.childFooter))
    ensures Image(file, j.header, bat, j.header.maxTableEntries, blocks, pending)
    ensures forall i | 0 <= i < |bat| :: 0 <= bat[i]
    ensures j.header.maxTableEntries <= |bat| && EndSector(j.header, bat, j.header.maxTableEntries) < BLOCK_UNUSED
  {
    MergedFooterFits(j);
    RoomForBlock(j.header, bat, j.child.Keys, id);
  }

  lemma MergedFooterFits(j: Job)
    requires Sound(j)
    ensures ValidFooter(MergedFooter(j.footer, j.childFooter))
    ensures MergedFooter(MergedFooter(j.footer, j.childFooter), j.childFooter) == MergedFooter(j.footer, j.childFooter)
  {
  }

  // ----- the state on the side --------------------------------------------------------------------------

  /** Storage from which the merge can be resumed. */
  ghost predicate CanResume(file: Buffer, state: Option<MergeState>, j: Job) {
    exists blocks, pending :: Resumable(file, state, j, blocks, pending)
  }

  /**
   * The state on disk fits the parent as it is now, from a block no later than `latest`. There is no
   * state only if the process could not write anything any more.
   */
  ghost predicate Saved(state: Option<MergeState>, steps: nat, file: Buffer, blocks: Blocks, pending: set<nat>,
                        j: Job, latest: nat)
    requires Sound(j)
  {
    match state
    case Some(state) => StateFits(state, j, blocks, pending) && state.currentBlock <= latest
    case None => steps == 0 && Resumable(file, None, j, j.base, {})
  }

  lemma HaltedCanResume(state: Option<MergeState>, steps: nat, file: Buffer, blocks: Blocks, pending: set<nat>,
                        j: Job, latest: nat)
    requires Sound(j) && Saved(state, steps, file, blocks, pending, j, latest) && Halted(file, j, blocks, pending)
    ensures CanResume(file, state, j)
  {
    if state.Some? {
      assert Resumable(file, state, j, blocks, pending);
    } else {
      assert Resumable(file, state, j, j.base, {});
    }
  }

  /** A state that fitted before a block fits whatever became of the block. */
  lemma SavedAfterBlock(state: Option<MergeState>, steps: nat, file: Buffer, blocks: Blocks, pending: set<nat>,
                        j: Job, latest: nat, id: nat, after: Buffer, left: nat)
    requires Sound(j) && Saved(state, steps, file, blocks, pending, j, latest) && id in j.child && latest <= id
    requires steps == 0 ==> after == file && left == 0
    ensures Saved(state, left, after, blocks - {id}, pending + {id}, j, latest)
    ensures Saved(state, left, after, blocks[id := j.child[id]], pending - {id}, j, latest)
  {
    if state.Some? {
      ProgressOnBlock(blocks, pending, j.base, j.child, state.value.currentBlock, id);
    }
  }

  lemma SavedLater(state: Option<MergeState>, steps: nat, file: Buffer, blocks: Blocks, pending: set<nat>,
                   j: Job, earlier: nat, later: nat)
    requires Sound(j) && Saved(state, steps, file, blocks, pending, j, earlier) && earlier <= later
    ensures Saved(state, steps, file, blocks, pending, j, later)
  {
  }

  /** One block, with the guarantee that wherever it stops the merge can be resumed. */
  method MergeNext(parent: VhdFile, child: VhdFile, id: nat, ghost j: Job, ghost done: nat, ghost latest: nat)
    returns (ok: bool)
    requires Opened(parent, j) && IsChild(child, parent, j) && Chained(j) && Sound(j)
    requires Live(parent.handler.file, parent.blockTable, parent.blocks, parent.pending, j, done)
    requires Saved(parent.handler.mergeState, parent.handler.steps, parent.handler.file, parent.blocks,
                   parent.pending, j, latest)
    requires latest <= done <= id && id in j.child && forall k | k in j.child && k < id :: k < done
    modifies parent`blockTable, parent`pending, parent`blocks, parent.handler`file, parent.handler`steps
    ensures ok ==> Live(parent.handler.file, parent.blockTable, parent.blocks, parent.pending, j, id + 1)
    ensures ok ==>
      Saved(parent.handler.mergeState, parent.handler.steps, parent.handler.file, parent.blocks, parent.pending, j, id)
    ensures !ok ==> CanResume(parent.handler.file, parent.handler.mergeState, j)
    ensures old(parent.handler.steps) - 2 <= parent.handler.steps <= old(parent.handler.steps)
    ensures old(parent.handler.steps) >= 2 ==> ok
  {
    hide Live, Resumable, Progress, Sound, Image, Saved, Halted, CanResume;
    ghost var file, steps, blocks, pending := parent.handler.file, parent.handler.steps, parent.blocks, parent.pending;
    ok := MergeBlock(parent, child, id, j, done);
    ghost var state, after, left := parent.handler.mergeState, parent.handler.file, parent.handler.steps;
    SavedAfterBlock(state, steps, file, blocks, pending, j, latest, id, after, left);
    if ok {
      SavedLater(state, left, after, parent.blocks, parent.pending, j, latest, id);
    } else {
      HaltedCanResume(state, left, after, parent.blocks, parent.pending, j, latest);
    }
  }

  // ----- all blocks -------------------------------------------------------------------------------------

  /** The child's blocks from `first` on, in increasing order. */
  method BlocksToMerge(child: VhdFile, first: nat) returns (toMerge: seq<nat>)
    requires child.Valid() && child.pending == {}
    ensures forall id: nat :: id in toMerge <==> id in child.blocks && id >= first
    ensures forall i, k | 0 <= i < k < |toMerge| :: toMerge[i] < toMerge[k]
    ensures |toMerge| <= child.header.maxTableEntries
  {
    toMerge := [];
    var maxTableEntries := child.header.maxTableEntries;
    BlocksAreContained(child);
    hide Image;
    for block := first to Max(first, maxTableEntries)
      invariant forall id: nat :: id in toMerge <==> id in child.blocks && first <= id < block
      invariant forall i, k | 0 <= i < k < |toMerge| :: toMerge[i] < toMerge[k]
      invariant |toMerge| <= block - first
    {
      if child.ContainsBlock(block) {
        assert forall i | 0 <= i < |toMerge| :: toMerge[i] in toMerge;
        toMerge := toMerge + [block];
      }
    }
  }

  lemma BlocksAreContained(child: VhdFile)
    requires child.Valid() && child.pending == {}
    ensures forall id: nat :: id in child.blocks <==> child.ContainsBlock(id)
    ensures forall id: nat | id in child.blocks :: id < child.header.maxTableEntries
  {
    forall id: nat | id in child.blocks ensures child.ContainsBlock(id) && id < child.header.maxTableEntries {
      assert Holds(child.handler.file, child.header, child.blockTable, id, child.blocks[id]);
      UsedInTable(child.header, child.blockTable, id);
    }
  }

  /** A state whose block is no later than what is merged may be written at any time. */
  lemma WritingState(state: Option<MergeState>, steps: nat, file: Buffer, bat: Table, blocks: Blocks, pending: set<nat>,
                     j: Job, done: nat, latest: nat, next: MergeState, left: nat, written: Option<MergeState>)
    requires Live(file, bat, blocks, pending, j, done) && Chained(j) && next.currentBlock <= done
    requires next.parentHeader == HeaderChecksum(j.header) && next.childHeader == HeaderChecksum(j.childHeader)
    requires Saved(state, steps, file, blocks, pending, j, latest)
      || (state.None? && Resumable(file, None, j, j.base, {}))
    requires if steps > 0 then written == Some(next) else left == 0 && written == state
    ensures Saved(written, left, file, blocks, pending, j, Max(latest, next.currentBlock))
  {
    OlderStateIsSafe(blocks, pending, j.base, j.child, next.currentBlock, done);
  }

  /**
   * Merges every block of the child from the state's current block on. The state is written now and
   * then without waiting for it: at any moment, and possibly late, so that what reaches the disk is
   * some earlier value.
   */
  method MergeBlocks(parent: VhdFile, child: VhdFile, initial: MergeState, ghost j: Job)
    returns (ok: bool, ghost done: nat, ghost latest: nat)
    requires Opened(parent, j) && IsChild(child, parent, j) && Chained(j) && Sound(j)
    requires Live(parent.handler.file, parent.blockTable, parent.blocks, parent.pending, j, initial.currentBlock)
    requires initial.parentHeader == HeaderChecksum(j.header) && initial.childHeader == HeaderChecksum(j.childHeader)
    requires Saved(parent.handler.mergeState, parent.handler.steps, parent.handler.file, parent.blocks, parent.pending,
                   j, initial.currentBlock)
    modifies parent`blockTable, parent`pending, parent`blocks
    modifies parent.handler`file, parent.handler`steps, parent.handler`mergeState
    ensures ok ==> Live(parent.handler.file, parent.blockTable, parent.blocks, parent.pending, j, done)
    ensures ok ==> forall id | id in j.child :: id < done
    ensures ok ==>
      Saved(parent.handler.mergeState, parent.handler.steps, parent.handler.file, parent.blocks, parent.pending,
            j, latest)
    ensures !ok ==> CanResume(parent.handler.file, parent.handler.mergeState, j)
    ensures parent.handler.steps >= old(parent.handler.steps) - 3 * child.header.maxTableEntries - 1
    ensures old(parent.handler.steps) > 3 * child.header.maxTableEntries ==> ok
  {
    hide Live, Resumable, Progress, Sound, Saved, Image, CanResume, Chained;
    var state := initial;
    var toMerge := BlocksToMerge(child, initial.currentBlock);
    done, latest := initial.currentBlock, initial.currentBlock;
    var i := 0;
    while i < |toMerge|
      invariant 0 <= i <= |toMerge|
      invariant Live(parent.handler.file, parent.blockTable, parent.blocks, parent.pending, j, done)
      invariant Saved(parent.handler.mergeState, parent.handler.steps, parent.handler.file, parent.blocks,
                      parent.pending, j, latest)
      invariant state == initial.(currentBlock := state.currentBlock) && latest == state.currentBlock <= done
      invariant done == if i == 0 then initial.currentBlock else toMerge[i - 1] + 1
      invariant parent.handler.steps >= old(parent.handler.steps) - 3 * i
    {
      var blockId := toMerge[i];
      assert blockId in toMerge;
      NoneBetween(toMerge, i, j.child.Keys, initial.currentBlock, done);
      ok := MergeNext(parent, child, blockId, j, done, latest);
      if !ok {
        return;
      }
      state := state.(currentBlock := blockId);
      done, latest := blockId + 1, blockId;
      i := i + 1;
      var writing: bool := *;
      if writing {
        var snapshot: nat :| snapshot <= state.currentBlock;
        WriteMergeState(parent, state.(currentBlock := snapshot), j, done, latest);
      }
    }
    NoneBetween(toMerge, i, j.child.Keys, initial.currentBlock, done);
    WriteMergeState(parent, state, j, done, latest);
    ok := true;
  }

  /** Before the `i`-th block to merge, every block of the child is below `done`. */
  lemma NoneBetween(toMerge: seq<nat>, i: nat, child: set<nat>, first: nat, done: nat)
    requires i <= |toMerge| && forall id: nat :: id in toMerge <==> id in child && id >= first
    requires forall i, k | 0 <= i < k < |toMerge| :: toMerge[i] < toMerge[k]
    requires done == if i == 0 then first else toMerge[i - 1] + 1
    ensures forall k | k in child && (i < |toMerge| ==> k < toMerge[i]) :: k < done
    ensures i < |toMerge| ==> done <= toMerge[i]
  {
    assert i > 0 ==> toMerge[i - 1] in toMerge;
    forall k | k in child && (i < |toMerge| ==> k < toMerge[i]) ensures k < done {
      if k >= first {
        assert k in toMerge;
        var p :| 0 <= p < |toMerge| && toMerge[p] == k;
        assert i < |toMerge| ==> p < i;
        assert p < i - 1 ==> toMerge[p] < toMerge[i - 1];
      }
    }
    if i < |toMerge| {
      assert toMerge[i] in toMerge;
    }
  }

  method WriteMergeState(parent: VhdFile, next: MergeState, ghost j: Job, ghost done: nat, ghost latest: nat)
    requires Live(parent.handler.file, parent.blockTable, parent.blocks, parent.pending, j, done)
    requires Sound(j) && Chained(j) && next.currentBlock <= done
    requires next.parentHeader == HeaderChecksum(j.header) && next.childHeader == HeaderChecksum(j.childHeader)
    requires
      || Saved(parent.handler.mergeState, parent.handler.steps, parent.handler.file, parent.blocks, parent.pending,
            j, latest)
      || (parent.handler.mergeState.None? && Resumable(parent.handler.file, None, j, j.base, {}))
    modifies parent.handler`mergeState, parent.handler`steps
    ensures Saved(parent.handler.mergeState, parent.handler.steps, parent.handler.file, parent.blocks, parent.pending,
                  j, Max(latest, next.currentBlock))
    ensures parent.handler.steps >= old(parent.handler.steps) - 1
  {
    hide Live, Resumable, Sound, Saved, Chained;
    ghost var state, steps := parent.handler.mergeState, parent.handler.steps;
    parent.handler.WriteState(next);
    WritingState(state, steps, parent.handler.file, parent.blockTable, parent.blocks, parent.pending, j, done, latest,
                 next, parent.handler.steps, parent.handler.mergeState);
  }

  // ----- finishing --------------------------------------------------------------------------------------

  lemma LiveCanResume(state: Option<MergeState>, steps: nat, file: Buffer, bat: Table, blocks: Blocks,
                      pending: set<nat>,
                      j: Job, latest: nat)
    requires Sound(j) && Image(file, j.header, bat, j.header.maxTableEntries, blocks, pending)
    requires Room(j.header, bat, j.child.Keys) && StartFooter(file, j)
    requires Saved(state, steps, file, blocks, pending, j, latest)
    ensures CanResume(file, state, j)
  {
    RoomReachesDisk(file, j, bat, blocks, pending);
    HaltedCanResume(state, steps, file, blocks, pending, j, latest);
  }

  /** Writes the table, then gives the parent the child's size and identity and writes both footers. */
  method UpdateHeaders(parent: VhdFile, child: VhdFile, ghost j: Job, ghost done: nat, ghost latest: nat)
    returns (ok: bool)
    requires Opened(parent, j) && Sound(j) && child != parent && child.footer == j.childFooter
    requires Live(parent.handler.file, parent.blockTable, parent.blocks, parent.pending, j, done)
    requires forall id | id in j.child :: id < done
    requires Saved(parent.handler.mergeState, parent.handler.steps, parent.handler.file, parent.blocks,
                   parent.pending, j, latest)
    modifies parent`synced, parent`footer, parent.handler`file, parent.handler`steps
    ensures ok ==> Merged(parent.handler.file, j)
    ensures !ok ==> CanResume(parent.handler.file, parent.handler.mergeState, j)
    ensures old(parent.handler.steps) >= 3 ==> ok
  {
    MergedCompletely(parent.blocks, parent.pending, j.base, j.child, done);
    MergedFooterFits(j);
    ghost var state, steps, file := parent.handler.mergeState, parent.handler.steps, parent.handler.file;
    ghost var bat, blocks, pending := parent.blockTable, parent.blocks, parent.pending;
    assert Image(file, j.header, bat, j.header.maxTableEntries, blocks, pending);
    assert Room(j.header, bat, j.child.Keys) && StartFooter(file, j);
    hide Live, Resumable, Progress, Sound, DiskImage, Image, Room, StartFooter, CanResume;
    ok := parent.WriteBlockAllocationTable();
    ghost var written := parent.handler.file;
    StartKept(file, written, j);
    if !ok {
      LiveCanResume(state, parent.handler.steps, written, bat, blocks, pending, j, latest);
      return;
    }
    assert Saved(state, parent.handler.steps, written, blocks, pending, j, latest);
    parent.footer := MergedFooter(parent.footer, child.footer);
    ok := WriteMergedFooter(parent, j, latest);
  }

  method WriteMergedFooter(parent: VhdFile, ghost j: Job, ghost latest: nat) returns (ok: bool)
    requires Sound(j) && parent.Valid() && parent.header == j.header && parent.synced == j.header.maxTableEntries
    requires parent.footer == MergedFooter(j.footer, j.childFooter)
    requires parent.blocks == j.base + j.child && parent.pending == {}
    requires Layout(j.header, parent.blockTable) && Room(j.header, parent.blockTable, j.child.Keys)
    requires StartFooter(parent.handler.file, j)
    requires Saved(parent.handler.mergeState, parent.handler.steps, parent.handler.file, parent.blocks,
                   parent.pending, j, latest)
    modifies parent.handler`file, parent.handler`steps
    ensures ok ==> Merged(parent.handler.file, j)
    ensures !ok ==> CanResume(parent.handler.file, parent.handler.mergeState, j)
    ensures old(parent.handler.steps) >= 2 ==> ok
  {
    hide Resumable, Progress, Sound, DiskImage, Image, Layout, Room, StartFooter, CanResume, PackFooter, ValidFooter;
    ghost var state, written := parent.handler.mergeState, parent.handler.file;
    ok := parent.WriteFooter(false);
    ghost var after := parent.handler.file;
    RoomReachesDisk(after, j, parent.blockTable, parent.blocks, parent.pending);
    if !ok {
      NewStart(written, after, j);
      LiveCanResume(state, parent.handler.steps, after, parent.blockTable, parent.blocks, parent.pending, j, latest);
    }
  }

  lemma NewStart(a: Buffer, b: Buffer, j: Job)
    requires Sound(j) && StartFooter(a, j)
    requires SameStart(a, b) || At(b, 0, PackFooter(MergedFooter(j.footer, j.childFooter)))
    ensures StartFooter(b, j)
  {
    if SameStart(a, b) {
      StartKept(a, b, j);
    }
  }

  // ----- a whole run ------------------------------------------------------------------------------------

  /** The assertions a first run makes before it touches anything. */
  predicate ChecksPass(parent: Header, footer: Footer, child: Header, childFooter: Footer)
    requires ValidHeader(child)
  {
    && child.parent[..16] == footer.uuid
    && (footer.diskType == DIFFERENCING || footer.diskType == DYNAMIC)
    && childFooter.diskType == DIFFERENCING
    && child.blockSize == parent.blockSize
  }

  /** Opens the parent as a run finds it. */
  method OpenParent(handler: Handler, ghost j: Job, ghost blocks: Blocks, ghost pending: set<nat>)
    returns (parent: VhdFile)
    requires Resumable(handler.file, handler.mergeState, j, blocks, pending)
    ensures fresh(parent) && parent.handler == handler && Opened(parent, j)
    ensures parent.blocks == blocks && parent.pending == pending
    ensures handler.mergeState.None? ==> parent.footer == j.footer
    ensures parent.Valid() && Layout(j.header, parent.blockTable)
    ensures Room(j.header, parent.blockTable, j.child.Keys)
  {
    StillOpens(handler.file, handler.mergeState, j, blocks, pending);
    assert DiskImage(handler.file, j.header, blocks, pending) && RoomOnDisk(handler.file, j);
    ghost var table := DiskTable(handler.file, j.header.tableOffset, j.header.maxTableEntries);
    ImageBasics(handler.file, j.header, table, j.header.maxTableEntries, blocks, pending);
    hide Resumable, Image, Readable, UnpackFooter, UnpackHeader, StateFits, StartFooter, Layout, Room, PackFooter;
    var vhd := Open(handler, handler.mergeState.None?, blocks, pending);
    parent := vhd;
  }

  /** Gives the state of a first run, from the first block of the child on. */
  method FirstState(parent: VhdFile, child: VhdFile) returns (state: MergeState)
    requires ValidHeader(parent.header) && child.Valid() && child.pending == {}
    ensures state.parentHeader == HeaderChecksum(parent.header) && ValidHeader(child.header)
    ensures state.childHeader == HeaderChecksum(child.header)
    ensures forall id | id in child.blocks :: state.currentBlock <= id
  {
    BlocksAreContained(child);
    assert ValidHeader(child.header);
    hide Image, HeaderChecksum;
    var currentBlock := 0;
    while currentBlock < child.header.maxTableEntries && !child.ContainsBlock(currentBlock)
      invariant forall id | id in child.blocks :: currentBlock <= id
    {
      currentBlock := currentBlock + 1;
    }
    state := MergeState(HeaderChecksum(parent.header), HeaderChecksum(child.header), currentBlock);
  }

  /** A freshly opened parent, before anything is merged. */
  lemma NothingMergedYet(blocks: Blocks, child: Blocks, currentBlock: nat)
    requires forall id | id in child :: currentBlock <= id
    ensures Progress(blocks, {}, blocks, child, currentBlock)
  {
  }

  /** Checks the parent against the child, or against the state of an earlier run, and gives the state to go on from. */
  method StartOrResume(parent: VhdFile, child: VhdFile, ghost j: Job, ghost blocks: Blocks, ghost pending: set<nat>)
    returns (state: Option<MergeState>)
    requires Opened(parent, j) && parent.Valid() && IsChild(child, parent, j) && parent.blocks == blocks
    requires parent.pending == pending
    requires Layout(j.header, parent.blockTable) && Room(j.header, parent.blockTable, j.child.Keys)
    requires Resumable(parent.handler.file, parent.handler.mergeState, j, blocks, pending)
    requires parent.handler.mergeState.None? ==> parent.footer == j.footer
    modifies parent`header, parent`blockTable, parent.handler`file, parent.handler`steps, parent.handler`mergeState
    ensures state.Some? ==> Opened(parent, j) && Chained(j)
    ensures state.Some? ==>
      Live(parent.handler.file, parent.blockTable, parent.blocks, parent.pending, j, state.value.currentBlock)
    ensures state.Some? ==> state.value.parentHeader == HeaderChecksum(j.header)
    ensures state.Some? ==> state.value.childHeader == HeaderChecksum(j.childHeader)
    ensures state.Some? ==> Saved(parent.handler.mergeState, parent.handler.steps, parent.handler.file, blocks, pending,
                                  j, state.value.currentBlock)
    ensures state.None?
      ==> parent.handler.file == old(parent.handler.file) && parent.handler.mergeState == old(parent.handler.mergeState)
    ensures parent.handler.steps >= old(parent.handler.steps) - 1
    ensures Chained(j) ==> state.Some?
  {
    hide Image, DiskImage, RoomOnDisk, Room, Layout, HeaderChecksum, PackFooter, StartFooter;
    if parent.handler.mergeState.None? {
      if !ChecksPass(parent.header, parent.footer, child.header, child.footer) {
        return None;
      }
      var long := parent.EnsureBatSize(child.header.maxTableEntries);
      var first := FirstState(parent, child);
      NothingMergedYet(blocks, j.child, first.currentBlock);
      WriteMergeState(parent, first, j, first.currentBlock, first.currentBlock);
      state := Some(first);
    } else {
      state := parent.handler.mergeState;
      if state.value.parentHeader != HeaderChecksum(parent.header)
        || state.value.childHeader != HeaderChecksum(child.header)
      {
        return None;
      }
    }
  }

  /**
   * One run of the merge, first or resumed. It completes, or leaves storage from which another run
   * can continue; with enough writes before an interruption it completes.
   */
  method Merge(handler: Handler, child: VhdFile, ghost j: Job) returns (ok: bool)
    requires CanResume(handler.file, handler.mergeState, j)
    requires child.handler != handler && child.Valid() && child.pending == {}
    requires child.header == j.childHeader && child.footer == j.childFooter && child.blocks == j.child
    modifies handler
    ensures ok ==> Merged(handler.file, j)
    ensures !ok ==> CanResume(handler.file, handler.mergeState, j)
    ensures Chained(j) && old(handler.steps) >= 3 * child.header.maxTableEntries + 5 ==> ok
  {
    ghost var blocks, pending :| Resumable(handler.file, handler.mergeState, j, blocks, pending);
    assert Sound(j);
    assert CanResume(handler.file, handler.mergeState, j);
    hide Image, Resumable, Room, Layout, HeaderChecksum, Chained, Sound, Live, Saved, CanResume, Merged, Opened,
      ValidHeader;
    var parent := OpenParent(handler, j, blocks, pending);
    var state := StartOrResume(parent, child, j, blocks, pending);
    if state.None? {
      return false;
    }
    ghost var done, latest;
    ok, done, latest := MergeBlocks(parent, child, state.value, j);
    if ok {
      ok := UpdateHeaders(parent, child, j, done, latest);
    }
  }

  /**
   * The merge attempted again and again, each time interrupted after the given number of writes. It
   * ends with the same disk however it was interrupted, and it ends as soon as an attempt is long
   * enough.
   */
  method MergeWithInterruptions(handler: Handler, child: VhdFile, attempts: seq<nat>, ghost j: Job) returns (ok: bool)
    requires CanResume(handler.file, handler.mergeState, j)
    requires child.handler != handler && child.Valid() && child.pending == {}
    requires child.header == j.childHeader && child.footer == j.childFooter && child.blocks == j.child
    modifies handler
    ensures ok ==> Merged(handler.file, j)
    ensures !ok ==> CanResume(handler.file, handler.mergeState, j)
    ensures Chained(j) && (exists i | 0 <= i < |attempts| :: attempts[i] >= 3 * child.header.maxTableEntries + 5) ==> ok
    ensures child.Valid() && child.blocks == old(child.blocks)
  {
    hide Image, Resumable, CanResume, Chained, Merged, VhdFile.Valid, Layout, ValidHeader, ValidFooter;
    ChildIsValid(handler.file, handler.mergeState, j);
    for i := 0 to |attempts|
      invariant CanResume(handler.file, handler.mergeState, j)
      invariant child.Valid()
      invariant Chained(j) ==> forall k | 0 <= k < i :: attempts[k] < 3 * child.header.maxTableEntries + 5
    {
      handler.steps := attempts[i];
      ok := Merge(handler, child, j);
      if ok {
        return;
      }
    }
    ok := false;
  }

  lemma ChildIsValid(file: Buffer, saved: Option<MergeState>, j: Job)
    requires CanResume(file, saved, j)
    ensures ValidHeader(j.childHeader)
  {
  }

  /** The merged file opens, second footer checked, and holds the child's block where it has one, else the parent's. */
  lemma MergedOpens(file: Buffer, j: Job)
    requires Merged(file, j) && j.childHeader.blockSize == j.header.blockSize
    ensures Readable(file, true)
    ensures UnpackFooter(file[..FOOTER_SIZE]) == Some(MergedFooter(j.footer, j.childFooter))
    ensures UnpackHeader(file[FOOTER_SIZE..FOOTER_SIZE + HEADER_SIZE], MergedFooter(j.footer, j.childFooter))
      == Some(j.header)
  {
    hide Image, UnpackFooter, UnpackHeader, PackFooter;
    LongerTableFits(j.childHeader.maxTableEntries, j.header.maxTableEntries, j.header.blockSize,
                    j.childFooter.currentSize);
    OpensAsWritten(file, j.header, MergedFooter(j.footer, j.childFooter), j.base + j.child, {});
  }

  /**
   * What its footer says: the child's size, geometry, time and identity, and for the rest what the parent's
   * footer said. Both copies agree, and each field is where the format has it.
   */
  lemma MergedFields(file: Buffer, j: Job)
    requires Merged(file, j)
    ensures |file| >= FOOTER_SIZE && file[..FOOTER_SIZE] == file[|file| - FOOTER_SIZE..]
    ensures UnpackFooter(file[..FOOTER_SIZE]).Some?
    ensures var f := UnpackFooter(file[..FOOTER_SIZE]).value;
      && f.currentSize == j.childFooter.currentSize && f.originalSize == j.childFooter.originalSize
      && f.diskGeometry == j.childFooter.diskGeometry && f.timestamp == j.childFooter.timestamp
      && f.uuid == j.childFooter.uuid
      && f.features == j.footer.features && f.creator == j.footer.creator
      && f.diskType == j.footer.diskType && f.reserved == j.footer.reserved
    ensures file[68..84] == j.childFooter.uuid && file[48..56] == U64(j.childFooter.currentSize)
  {
    hide PackFooter, UnpackFooter, DiskImage;
    var b := PackFooter(MergedFooter(j.footer, j.childFooter));
    assert file[..FOOTER_SIZE] == b == file[|file| - FOOTER_SIZE..];
    FooterFields(b, j);
    assert file[68..84] == b[68..84] && file[48..56] == b[48..56];
  }

  lemma FooterFields(b: Buffer, j: Job)
    requires ValidFooter(j.footer) && ValidFooter(j.childFooter)
    requires b == PackFooter(MergedFooter(j.footer, j.childFooter))
    ensures UnpackFooter(b).Some?
    ensures var f := UnpackFooter(b).value;
      && f.currentSize == j.childFooter.currentSize && f.originalSize == j.childFooter.originalSize
      && f.diskGeometry == j.childFooter.diskGeometry && f.timestamp == j.childFooter.timestamp
      && f.uuid == j.childFooter.uuid
      && f.features == j.footer.features && f.creator == j.footer.creator
      && f.diskType == j.footer.diskType && f.reserved == j.footer.reserved
    ensures b[68..84] == j.childFooter.uuid && b[48..56] == U64(j.childFooter.currentSize)
  {
    hide PackFooter, UnpackFooter;
    FooterRoundTrip(MergedFooter(j.footer, j.childFooter));
    FooterPlaces(MergedFooter(j.footer, j.childFooter));
  }

  /** After the merge a child of the child has the merged disk as its parent, and only such a one has. */
  lemma GrandchildFits(file: Buffer, j: Job, header: Header, footer: Footer)
    requires Merged(file, j) && ValidHeader(header) && ValidFooter(footer)
    ensures UnpackFooter(file[..FOOTER_SIZE]).Some?
    ensures ChecksPass(j.header, UnpackFooter(file[..FOOTER_SIZE]).value, header, footer)
      <==> header.parent[..16] == j.childFooter.uuid && footer.diskType == 4 && header.blockSize == j.header.blockSize
  {
    MergedFields(file, j);
  }

  /** Merging it is a job that can start, if its blocks fit the table and find room. */
  lemma NextMergeCanStart(file: Buffer, j: Job, next: Job)
    requires Merged(file, j) && j.childHeader.blockSize == j.header.blockSize && Sound(next) && RoomOnDisk(file, next)
    requires next.header == j.header && Some(next.footer) == UnpackFooter(file[..FOOTER_SIZE])
    requires next.base == j.base + j.child
    ensures CanResume(file, None, next)
  {
    hide PackFooter, DiskImage, RoomOnDisk, UnpackFooter;
    MergedOpens(file, j);
    FreshMergeCanStart(file, next);
  }

  /** A parent that opens cleanly, not merged yet, is where the first run starts. */
  lemma FreshMergeCanStart(file: Buffer, j: Job)
    requires Sound(j) && DiskImage(file, j.header, j.base, {}) && RoomOnDisk(file, j)
    requires At(file, 0, PackFooter(j.footer)) && At(file, |file| - FOOTER_SIZE, PackFooter(j.footer))
    ensures CanResume(file, None, j)
  {
    assert Resumable(file, None, j, j.base, {});
  }
}
