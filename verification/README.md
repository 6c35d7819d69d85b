# Xen Orchestra: models and proofs

A Dafny model of the storage, scheduling and data-structure code of Xen Orchestra, with proofs of what that
code is for. `dafny verify dfyconfig.toml` checks everything.

Code that changes state in place is modelled by classes and methods with loops, each proved against a
specification; code that only computes is modelled by functions and lemmas. Asynchronous code is cut at its
awaits: what runs between two of them is one atomic step, and a process may stop between any two. A file is a
sequence of bytes, a block device a sequence of sectors, a hash a free constructor (no two inputs collide).

## What is modelled

* **The VHD engine** (`packages/vhd-lib`). `VhdFormat` is the binary format of Microsoft's "Virtual Hard Disk
  Image Format Specification", with its checksums. `VhdLayout` says what an image is (headers, table and blocks
  at disjoint places) and what a write of each kind does to it. `VhdFile` is the allocator on one file, `Bitmap`
  and `VhdSectors` the sector-level write path, `VhdRun` arbitrary runs of operations followed by a reopening,
  `VhdMerge` the merge into a file, which survives interruptions, `AsyncEach`, `VhdDirectory` and `ConcurrentMerge`
  the concurrent merge into a directory, `VhdOverlay` the synthetic and negative views and the raw readers.
  `VhdStream`, `VhdParse`, `VhdStreamRoundTrip` and `VhdStreamLength` are the stream writer, the stream parser, the
  proof that each undoes the other, and the pass-through that needs the length in advance. `Geometry`, `SparseLayout`,
  `SparseStream` and `SparseDisk` are the two-pass builder of sparse disks. `VhdExamples` has a concrete disk for each
  condition below.
* **The FAT engine** (`@vates/fatfs`). `FatMount` (where a boot sector places the clusters), `FatTable` (entries of
  12, 16 and 28 bits), `FatChain` (cluster chains and their growth), `FatDevice` (the sector cache), `FatFile`
  (sectors of a chain, by runs of neighbouring clusters) and `FatBytes` (bytes at any position).
* **The filter language** (`packages/complex-matcher`). `MatcherSyntax` (nodes and printer), `MatcherParser`,
  `MatcherRoundTrip`, and `MatcherGrammar`, which says in literal characters which texts are read as which filters.
  What JavaScript's characters and numbers are is a parameter that obeys stated laws;
  `MatcherExamples` has a small instance of it in which every condition below fails for some filter.
* **The load balancer** (`packages/xo-server-load-balancer`). `Variance`, `Sorting`, `Placement`, `AntiAffinity`
  and `VcpuPlacement`.
* **The audit log** (`@xen-orchestra/audit-core`): `AuditChain` and `AuditCore`.
* **The event-buffered collection and its index** (`packages/xo-collection`): `XoCollection`, `CollectionIndex` and
  `CollectionRun`.
* **The map with composite keys** (`@vates/multi-key-map`): `MultiKeyMap`.

`Options`, `Bytes` and `Storage` hold what the others share: an optional value, byte arithmetic and slices, and a file
store that stops after a given number of writes.

## Where the code does less than it promises

The model does what the code does. Where that is less than a comment, a test or the purpose promises, the exact
condition is proved.

* A filter that prints to a text is read back as itself if and only if every comparison number prints without a
  character that the grammar does not take as raw (the plus sign of an exponent), no string is printed
  unquoted that has a character of two UTF-16 units, and no comparison is with -0, which comes back as 0
  (`MatcherRoundTrip.RoundTrip`; `MatcherExamples.ExponentLost`, `MatcherExamples.PairLost`,
  `MatcherExamples.NegativeZeroLost`).
* The pass-through with a length loses the used parent locators of a disk without blocks, and fails to find the end
  of one whose table is empty (`VhdStreamLength.WithLength`; `VhdExamples.LocatorLost`).
* A stream is parsed if and only if every used parent locator has data that fits its space and no chunk reaches
  1 GiB (`VhdStreamRoundTrip.StreamParses`; `VhdExamples.EmptyLocator`).
* The raw content of a disk has the announced length if and only if the size is a whole number of blocks or the table
  has no spare entry (`VhdOverlay.RawContentLength`; `VhdExamples.LongRawContent`).
* A negative disk gives blocks of the length the other classes expect if and only if the block size is a multiple
  of 2 MiB (`VhdOverlay.NegativeBlockIsFull`; `VhdExamples.SmallNegativeBlock`). The data of its blocks is right for
  every block size (`VhdOverlay.NegativeRestores`). By sectors it is not: a sector that only the child marks, in a
  block of both disks, stays the child's, and below eight sectors a block there is no bitmap for the zeros
  (`VhdOverlay.NegativeBySectors` has the exact condition; `VhdExamples.SectorStaysTheChilds`).
* A synthetic disk announces the places of the oldest VHD's parent locators, but reads their data from the newest one
  (`VhdOverlay.SyntheticFields`).
* A merge into a directory that is stopped and resumed is complete if and only if the table on disk lists every block
  below the saved one: the table stays in memory, while the state file already counts these blocks
  (`ConcurrentMerge.MergeOnce`). When blocks are copied, these are the blocks that the parent had before
  (`ConcurrentMerge.CopiedAreListed`), so that one stop can lose a block (`ConcurrentMerge.CopyLost`). When files are
  moved, it takes two, the first between the move of a file and the write of the table
  (`ConcurrentMerge.MoveLost`, `ConcurrentMerge.MergeInParallel`). Without a stop the merge is complete, at any
  concurrency. The merge into a file has no such loss (`VhdMerge.MergeWithInterruptions`).
* An `asyncEach` that does not stop on errors and is aborted is never settled if and only if the end of the iterator
  arrives after the abort with nothing pending (`AsyncEach.Scheduler.DrainWithAbort`; `AsyncEach.HangsAfterAbort`);
  else it is settled one promise too early (`AsyncEach.Scheduler.AbortedTooEarly`).
* A FAT12 entry whose bytes lie in two sectors takes two writes. Stopped between them, a link from the end of a chain
  leaves the chain as it was or already linked if and only if the value does not break it (`FatChain.HalfLinked`,
  with the condition `FatChain.Breaks`; `FatChain.TornExample`). Where no entry tears, no chain does
  (`FatChain.NeverTorn`), and entries of 16 and 28 bits never do (`FatTable.OnlyFat12Straddles`).
* The largest FAT12 and FAT16 volumes have clusters whose numbers read as reserved (`FatTable.LinksReadBackWhen`,
  `FatTable.LargestVolumesDoNot`); of the end-of-chain values of the standard, all but the first read as an
  end (`FatTable.EndsReadAs`); an entry stored as `'free'` reads as a link (`FatTable.NamedReadsAs`). The last two
  clusters of a volume are never allocated (`FatMount.ClusterExists`).
* Deleting a range from the audit log reverses the records after it, and deletes one of the new records again if and
  only if the rewritten chain begins with the deleted records (`AuditCore.AuditLog.DeleteRangeAndRewrite`); records
  with pairwise different times never do (`AuditCore.TimesApart`).
* An index attached while an addition is pending keeps that item if it is removed before the flush, whatever is done
  to other items later (`CollectionRun.StaleForEver`); attached at any other time it is exact
  (`CollectionIndex.CanFollow`, `CollectionRun.RunAndCompare`).
* The sparse builder accepts a list of fragments if and only if no fragment repeats the address of the last fragment
  of its block and no block starts at the sector that stands for "unused" (`SparseDisk.CreateReadableSparseStream`;
  `VhdExamples.SameAddressTwice`).
* The vCPU plan's comment says that migrations between pools are avoided; its sort puts the hosts of other pools first
  (`VcpuPlacement.Destinations`). An acceptable migration from one of its sources is left at the end at most to a host
  that the plan has itself brought below its share, and of a machine of at most one virtual CPU
  (`VcpuPlacement.VcpuHosts.ProcessVcpuPrepositioning`).
* Setting `undefined` in a map with composite keys can leave needless nodes; exactly when is
  `MultiKeyMap.SetUndefined`.

## Model

| member | source | states |
|---|---|---|
| VhdFormat.FooterRoundTrip | packages/vhd-lib/Vhd/_utils.js:96-102 | Unpacking a packed valid footer, checksum test and field checks included, gives the same footer. |
| VhdFormat.HeaderRoundTrip | packages/vhd-lib/Vhd/_utils.js:60-94 | Unpacking a packed valid header next to a footer whose disk its table covers gives the same header; the parent locators come back in order. |
| VhdFormat.FooterPlaces | packages/vhd-lib/_structs.js:22-44 | Each field of a packed footer is at the offset and in the byte order of the format, with the literal cookie, version and header offset. |
| VhdFormat.HeaderPlaces | packages/vhd-lib/_structs.js:48-72 | So is each field of a packed header. |
| VhdFormat.LocatorPlaces | packages/vhd-lib/_structs.js:59-69 | Parent locator `i` is 24 bytes from byte 576 + 24 i on, field by field. |
| VhdFormat.FooterAccepted | packages/vhd-lib/Vhd/_utils.js:96-102 | 512 bytes unpack to a footer if and only if cookie, version, header offset, checksum, sizes and disk type are right, each given as literal bytes or numbers. |
| VhdFormat.HeaderAccepted | packages/vhd-lib/_checkHeader.js:7-16 | 1024 bytes unpack to a header beside a footer if and only if cookie, version, checksum and block size are right and the table covers the disk. |
| Bytes.U32Digits | packages/vhd-lib/_structs.js:10-14 | A stored number is its four bytes read as digits, the most significant first. |
| VhdFile.GetFirstAndLastBlocks | packages/vhd-lib/_getFirstAndLastBlocks.js:7-49 | The ids and sectors of the first and last used blocks of the table: no used block starts before the first or after the last; none if no entry is used. |
| VhdLayout.EndIsFree | packages/vhd-lib/Vhd/VhdFile.js:175-191 | A block put at the end of data overlaps neither the metadata nor any block. |
| VhdLayout.BitmapSectors | packages/vhd-lib/Vhd/_utils.js:12-24 | The bitmap of a block takes one sector for each 2 MiB, and one for a smaller block. |
| VhdLayout.MetadataEnds | packages/vhd-lib/Vhd/VhdFile.js:146-168 | In numbers: the metadata ends at the least byte after the two headers, after the table in whole sectors, and after the space of every used parent locator. |
| VhdLayout.EndSectorLeast | packages/vhd-lib/Vhd/VhdFile.js:175-191 | The end of data is the least sector after the metadata and after the bitmap and the data of every used block. |
| VhdLayout.FillIsFree | packages/vhd-lib/Vhd/VhdFile.js:276-297 | After making room, the bytes where the table grows belong to no block. |
| VhdLayout.SwitchAddress | packages/vhd-lib/Vhd/VhdFile.js:250-274 | Switching a block's entry to a copy beyond all other blocks changes no block's content. |
| VhdFile.VhdFile.GetEndOfData | packages/vhd-lib/Vhd/VhdFile.js:175-191 | The least byte after the metadata and after every used block. |
| VhdFile.VhdFile.ReadBlock | packages/vhd-lib/Vhd/VhdFile.js:223-236 | A block with content reads as that content, wherever it is. |
| VhdFile.VhdFile.CreateBlock | packages/vhd-lib/Vhd/VhdFile.js:299-319 | Only the table entry changes on disk; it gets the end of data; it fails exactly when that sector number does not fit the entry or the process stops, and then the file is unchanged. |
| VhdFile.VhdFile.WriteEntireBlock | packages/vhd-lib/Vhd/VhdFile.js:335-342 | The block reads as the buffer and every other block as before; interrupted anywhere, the file still holds every other block, and the block itself may have an address without data. |
| VhdFile.VhdFile.FreeFirstBlockSpace | packages/vhd-lib/Vhd/VhdFile.js:250-274 | It succeeds if the file takes enough writes and the moved block's sector numbers fit their entries. No block changes content, and the space after the table is free when it is at most one full block; also when interrupted on the way, the file holds all blocks. |
| VhdFile.VhdFile.EnsureBatSize | packages/vhd-lib/Vhd/VhdFile.js:276-297 | It succeeds if the file takes enough writes and there is room to move blocks. The table grows to the given length, with unused entries, without touching any block. |
| VhdFile.VhdFile.WriteBlockAllocationTable | packages/vhd-lib/Vhd/VhdFile.js:395-400 | Every entry in memory reaches the disk and no block changes. |
| VhdFile.VhdFile.WriteFooter | packages/vhd-lib/Vhd/VhdFile.js:370-384 | Both footers are written (or the end one), outside the headers, the table and the blocks. |
| VhdFile.Open | packages/vhd-lib/Vhd/VhdFile.js:200-221 | Opening succeeds exactly when every check passes, with or without the comparison of the second footer, and then knows every block that is on disk. |
| VhdFile.OpensAsWritten | packages/vhd-lib/Vhd/VhdFile.js:200-216 | A file with its header and two equal footers in place passes every check and gives these back. |
| VhdRun.RegionsDisjoint | packages/vhd-lib/Vhd/VhdFile.js:21-53 | In a valid image, footer, header, table, blocks and end footer are pairwise disjoint, and parent locators are disjoint from blocks and end footer. |
| VhdRun.RegionPlaces | packages/vhd-lib/Vhd/VhdFile.js:21-53 | In numbers: from which byte to which each region goes, and which parent locators and blocks have one. |
| VhdRun.Run | packages/vhd-lib/Vhd/VhdFile.js:250-400 | Any run of block writes, moves, growths, table and footer writes succeeds if the file takes enough writes and sector numbers suffice, both computed from the run; after it every block reads as last written, and the file is a valid image. Stopped anywhere, the file, by the table in it, has every block as last written but the one being written, if the table has been written since it last grew. |
| VhdRun.RunAndReopen | packages/vhd-lib/Vhd/VhdFile.js:200-237 | Any such run and the final writes succeed under the same condition, with three writes more; once written, the file opens with the check of the second footer, with the contents, the header and the footer that the run should leave. |
| VhdRun.GrowthFitsDisk | packages/vhd-lib/_checkHeader.js:13-15 | Growing the table never makes it too short for the disk. |
| VhdMerge.MergeBlock | packages/vhd-lib/Vhd/VhdAbstract.js:110-115 | The parent's block becomes the child's; stopped between the entry and the data, only that block is undefined, and it is still to be merged. |
| VhdMerge.CreatingKeepsRoom | packages/vhd-lib/Vhd/VhdFile.js:299-319 | Creating one of the child's blocks uses exactly the room counted for it, so that no later block of the merge lacks a sector number. |
| VhdMerge.RoomEnough | packages/vhd-lib/Vhd/VhdFile.js:299-319 | A merge has room whenever there would be sector numbers for as many blocks as the table has entries. |
| VhdMerge.OlderStateIsSafe | packages/vhd-lib/merge.js:72-83 | A state file that lags behind, with an older current block, loses nothing. |
| VhdMerge.MergedCompletely | packages/vhd-lib/merge.js:190-236 | Once the current block is past the child's last block, the contents are the child's block where it has one, else the parent's. |
| VhdMerge.MergeBlocks | packages/vhd-lib/merge.js:190-236 | Whenever the loop stops, what is on disk and the state on disk, however late it was written, can be resumed; if it ends, every block is merged. |
| VhdMerge.UpdateHeaders | packages/vhd-lib/merge.js:238-254 | The table and the merged footers (`VhdMerge.MergedFields` says what is in them) are written; an interruption between the two footers can still be resumed. |
| VhdMerge.StartOrResume | packages/vhd-lib/merge.js:115-188 | A first run makes the assertions on the two disks and starts from the child's first block; a later run continues from the saved block. |
| VhdMerge.Merge | packages/vhd-lib/merge.js:85-254 | One run ends with the merged disk and its footers, or leaves storage from which another run can continue; with three writes per table entry and five more it ends. |
| VhdMerge.MergeWithInterruptions | packages/vhd-lib/merge.js:161-254 | However often and wherever the merge is interrupted, it ends with the same disk as an uninterrupted merge, the child untouched. |
| VhdMerge.MergedOpens | packages/vhd-lib/merge.js:238-254 | The merged file opens with the check of the second footer and gives the parent's header and the footer of `VhdMerge.MergedFields`. |
| VhdMerge.MergedFields | packages/vhd-lib/merge.js:238-254 | Both footers of the merged file are one, with the child's size, geometry, time and identity, and the parent's features, creator, disk type and reserved bytes; the identity and the size are at the format's offsets. |
| VhdMerge.GrandchildFits | packages/vhd-lib/merge.js:115-160 | The merged file passes the assertions of a next merge with a given child if and only if that child is a differencing disk, with blocks of the same size, whose parent has the identity of the child just merged. |
| VhdMerge.NextMergeCanStart | packages/vhd-lib/merge.js:115-188 | From the merged file the next merge of such a chain can run, from the overlaid contents, if its blocks fit and find room. |
| VhdMerge.FreshMergeCanStart | packages/vhd-lib/merge.js:115-160 | A parent that opens and a sound child are a state from which the merge can run. |
| Bitmap.SetRange | packages/vhd-lib/_bitmap.js:5-9 | Exactly the bits of the range are set besides those that were, on bitmaps whose bits are numbered from the most significant one. |
| Bitmap.SingleBits | packages/vhd-lib/_bitmap.js:3-9 | Bit 0 of a byte is the one worth 128 and bit 7 the one worth 1, for reading and for setting; all bits of 255 are set. |
| VhdSectors.SectorWritten | packages/vhd-lib/Vhd/VhdFile.js:344-368 | After a block's bitmap and sectors are written, the written sectors are present with the new data, the others as before. |
| VhdSectors.SectorOfBlock | packages/vhd-lib/Vhd/VhdFile.js:344-368 | Sector `s` of a block is present if and only if bit `s` of its bitmap is set, and is the 512 bytes that are `s` sectors after the bitmap. |
| VhdSectors.PowersAreSized | packages/vhd-lib/_checkHeader.js:11 | The block sizes that the sectors are proved for are those that the header check lets through: powers of two from 512 on. |
| VhdSectors.WriteBlockSectors | packages/vhd-lib/Vhd/VhdFile.js:344-368 | It succeeds with three writes and room for one block. Exactly the given sectors of one block change, also when the block is new; all other sectors keep their presence and their data. Stopped anywhere, all other blocks are as they were, and the block has its entry, or its entry and bitmap: without the bitmap its sectors are what the file had at its address; with it the given sectors are marked and hold what the file had there, the others are as they were. |
| VhdSectors.WriteData | packages/vhd-lib/Vhd/VhdFile.js:402-430 | It succeeds if the file takes the writes of the covered blocks and has room for them. Exactly the sectors that the buffer covers become present with its data, across partial first and last blocks; every other sector keeps its presence and, if present, its data; the file is a valid image with both footers. Stopped anywhere, the blocks before one of them are written and those after it are as they were. |
| VhdSectors.FootersKeepSectors | packages/vhd-lib/Vhd/VhdFile.js:370-384 | Writing the footers changes no sector of any block. |
| AsyncEach.Scheduler.Next | @vates/async-each/index.js:72-105 | The function `next` keeps the counters right and settles the loop exactly when the iterator is exhausted and nothing runs. |
| AsyncEach.Scheduler.Resume | @vates/async-each/index.js:72-105 | Each item is started once, in order, and a failed or finished call is counted at once. |
| AsyncEach.Scheduler.NeverTooMany | @vates/async-each/index.js:54-105 | No more promises are pending than the limit, but for one after an abort that does not stop. |
| AsyncEach.Scheduler.NoDeadlock | @vates/async-each/index.js:54-105 | As long as it is not settled, a loop waits for a promise of the iterator or of an item. |
| AsyncEach.Scheduler.AbortedTooEarly | @vates/async-each/index.js:28-70 | After an abort with `stopOnError` false, the loop cannot wait for exactly one promise, and never resolves. |
| AsyncEach.Scheduler.Drain | @vates/async-each/index.js:18-105 | Under every order of events the loop settles after finitely many: it resolves if and only if nothing failed; otherwise it rejects, with all errors when it does not stop on the first; every item is started exactly once and in order unless it stopped. |
| AsyncEach.Scheduler.DrainWithAbort | @vates/async-each/index.js:18-105 | Under every order of events of a loop that does not stop on errors, aborted at any time or not, the loop is left unsettled if and only if the end of the iterator arrived after the abort with nothing pending. |
| AsyncEach.HangsAfterAbort | @vates/async-each/index.js:28-70 | A concrete loop that is never settled: empty, aborted, not stopping on errors. |
| ConcurrentMerge.SelectBlocks | packages/vhd-lib/merge.js:191-197 | The child's blocks from the current one on, all of them, ascending. |
| ConcurrentMerge.BelowMerging | packages/vhd-lib/merge.js:201-211 | Every selected block below the least block being merged has been merged. |
| ConcurrentMerge.BlockLoop.BlockMerged | packages/vhd-lib/merge.js:206-220 | When a block has been merged, the new current block is not lower than the old one, and every selected block below it has been merged. |
| ConcurrentMerge.BlockLoop.MergeBlock | packages/vhd-lib/Vhd/VhdDirectory.js:253-294 | The block is copied, or its file is moved, or a resumed merge finds it moved; its bit is set in memory; only after a move whose bit was not set is the table to be written. Nothing else of the two directories changes, and it never fails for want of a file. |
| ConcurrentMerge.BlockLoop.TableWritten | packages/vhd-lib/Vhd/VhdDirectory.js:272-275 | A write of the table, as it was at any time since that write began, keeps all that the loop relies on. |
| ConcurrentMerge.BlockLoop.StoppedIsLeft | packages/vhd-lib/merge.js:190-225 | In every reachable state, at any concurrency, the files of all blocks below the current one, the saved one, and every older one whose write may still arrive, have the child's content, and every other block of the parent is as it was. When blocks are copied, the table on disk is as before; when files are moved, it lacks no block below that state but those that it lacked when the loop began, or whose file had been moved before. |
| ConcurrentMerge.BlockLoop.ResolvedIsMerged | packages/vhd-lib/merge.js:190-236 | When the loop resolves, the directory with its table in memory is the merged disk without the blocks that were lost before. |
| ConcurrentMerge.BlockLoop.Run | packages/vhd-lib/merge.js:190-236 | Any run, in any order of events, with failing or torn blocks and states written at any time and arriving late and in any order: the current block never decreases, and the run ends resolved, rejected with the first failure, or stopped; nothing fails unless a block may. |
| ConcurrentMerge.MergeInParallel | packages/vhd-lib/merge.js:161-240 | However often stopped and resumed, with any concurrency, each attempt from what the one before it left: one attempt that is neither stopped nor has a failing block ends the merge. It is then complete if and only if the table that the last attempt found lists every block below its state; so it is if nothing was stopped, and, when files are moved, if at most one attempt was stopped or none between a move and the write of the table. |
| ConcurrentMerge.MergeOnce | packages/vhd-lib/merge.js:190-240 | One attempt from whatever any number of stops has left: at its end exactly the blocks below the saved one that the table on disk did not list are missing, so that the merge is complete if and only if there are none; stopped, it leaves something that another attempt can start from. |
| ConcurrentMerge.CopiedAreListed | packages/vhd-lib/Vhd/VhdDirectory.js:296-299 | When blocks are copied, what a stopped merge leaves in the table on disk are the blocks that the parent had before. |
| ConcurrentMerge.CopyLost | packages/vhd-lib/merge.js:206-220 | Two blocks are copied at once into an empty directory, the state says that the second is current, the process stops, and the resumed merge ends without the first. |
| ConcurrentMerge.MoveLost | packages/vhd-lib/Vhd/VhdDirectory.js:264-292 | Files are moved: stopped after the first move, and again after the second block, which the table had, the merge ends without the first. |
| VhdOverlay.GetVhdWithBlock | packages/vhd-lib/Vhd/VhdSynthetic.js:89-97 | The newest VHD of the chain that has the block, if there is one. |
| VhdOverlay.ReadBlock | packages/vhd-lib/Vhd/VhdSynthetic.js:99-102 | A block of the synthetic disk is that of the newest VHD that has it. |
| VhdOverlay.SyntheticFields | packages/vhd-lib/Vhd/VhdSynthetic.js:18-46 | Sizes, identity, table length and block size of a synthetic disk are the newest VHD's; disk type, parent and parent locators are the oldest one's. |
| VhdOverlay.MergedInParts | packages/vhd-lib/Vhd/VhdSynthetic.js:72-102 | A chain reads as its first part read as one disk, overlaid by the rest read as one disk. |
| VhdOverlay.MergeOfSynthetic | packages/vhd-lib/Vhd/VhdAbstract.js:110-115 | Merging the synthetic disk of the children into the ancestor gives the disk of the whole chain. |
| VhdOverlay.ChainInParts | packages/vhd-lib/Vhd/VhdSynthetic.js:76-87 | A sequence is a chain if and only if its two parts are and their synthetic disks are linked. |
| VhdOverlay.ChainedWhen | packages/vhd-lib/Vhd/VhdSynthetic.js:76-87 | Two VHDs are a chain if and only if the second is a differencing disk whose first 16 bytes about its parent are the identity of the first. |
| VhdOverlay.NegativeIsChained | packages/vhd-lib/Vhd/VhdNegative.js:18-45 | The negative of a parent and its child is a valid next link after the child. |
| VhdOverlay.NegativeFields | packages/vhd-lib/Vhd/VhdNegative.js:18-53 | A negative disk has the fields of the parent, but is a differencing disk whose parent is the child, and has the child's blocks. |
| VhdOverlay.NegativeMarks | packages/vhd-lib/Vhd/VhdNegative.js:59-73 | A block that only the child has reads as zeros, and every sector that its bitmap covers is marked as there. |
| VhdOverlay.SectorOfVhd | packages/vhd-lib/Vhd/VhdAbstract.js:394-426 | Sector `s` of a block, in bytes: present if bit `s` of its first bytes is set, and then the 512 bytes that are `s` sectors after the bitmap. |
| VhdOverlay.NegativeBySectors | packages/vhd-lib/Vhd/VhdNegative.js:59-73 | Each sector, read by the newest of parent, child and negative whose bitmap marks it: zeros for blocks that only the child has, as far as the bitmap goes, and the parent's sector where the parent marks it; exactly when the parent's disk comes back is stated. |
| VhdOverlay.NegativeRestores | packages/vhd-lib/Vhd/VhdNegative.js:59-73 | Read through the parent, the child and the negative, each block's data is the parent's, for every block and every block size. |
| VhdOverlay.NegativeBuffersRestore | packages/vhd-lib/Vhd/VhdNegative.js:51-73 | So it does by whole buffers, bitmap and data, when the block size is a multiple of 2 MiB. |
| VhdOverlay.NegativeBlockIsFull | packages/vhd-lib/Vhd/VhdNegative.js:59-73 | A block that only the child has gets the length of a full block if and only if the block size is a multiple of 2 MiB. |
| VhdExamples.SectorStaysTheChilds | packages/vhd-lib/Vhd/VhdNegative.js:59-73 | A block of both disks of which only the child marks a sector: by sectors it is not the parent's after the negative. |
| VhdExamples.SmallNegativeBlock | packages/vhd-lib/Vhd/VhdNegative.js:59-73 | With blocks of 1 MiB the length is another. |
| VhdOverlay.ReadRawData | packages/vhd-lib/Vhd/VhdAbstract.js:394-426 | Exactly the requested bytes of the disk, zeros where there is no block, with any cache that is right; the cache stays right. |
| VhdOverlay.RawBytes | packages/vhd-lib/Vhd/VhdAbstract.js:394-426 | Byte `p` of the disk is the one of block `p / blockSize` after its bitmap, and zero without the block. |
| VhdOverlay.RawContent | packages/vhd-lib/Vhd/VhdAbstract.js:356-375 | The raw stream is the disk from its start, whenever every block but the last lies entirely on the disk. |
| VhdOverlay.RawContentLength | packages/vhd-lib/Vhd/VhdAbstract.js:356-375 | Its length is the disk's size if and only if the size is a whole number of blocks or the table has no spare entry. |
| VhdExamples.LongRawContent | packages/vhd-lib/Vhd/VhdAbstract.js:356-375 | A disk of 3 MiB with three table entries gives 4 MiB. |
| VhdStream.StreamSize | packages/vhd-lib/Vhd/VhdAbstract.js:246-265 | The announced size is that of the layout of the stream. |
| VhdStream.PlaceBlocks | packages/vhd-lib/Vhd/VhdAbstract.js:287-306 | The blocks follow each other without gap or overlap, in order; it fails exactly when an address does not fit its entry. |
| VhdStream.Stream | packages/vhd-lib/Vhd/VhdAbstract.js:267-354 | The bytes of the stream, piece by piece, are those of its layout, and as many as `streamSize` announces. |
| VhdParse.StreamParser.IndexBlocks | packages/vhd-lib/parseVhdStream.js:108-131 | The index gets every used block of the table; it fails exactly when one starts before the end of the table. |
| VhdParse.StreamParser.Parse | packages/vhd-lib/parseVhdStream.js:40-160 | The parser with its position and its index gives what the grammar of streams prescribes, for every stream, and fails when that does. |
| VhdStreamRoundTrip.SlotsParse | packages/vhd-lib/parseVhdStream.js:138-156 | Adjacent slots are read in order, each with its data, and reading stays before the last footer, if and only if every entry fits its slot. |
| VhdStreamRoundTrip.WholeIndex | packages/vhd-lib/parseVhdStream.js:79-131 | The sorted index is: used parent locators in slot order, then blocks in id order. |
| VhdStreamRoundTrip.StreamParses | packages/vhd-lib/Vhd/VhdAbstract.js:267-354 | Parsing the stream of a VHD gives its footer, header, table, used parent locators in slot order and blocks in id order with their exact bytes, if and only if it is readable; otherwise parsing fails. |
| VhdStreamRoundTrip.StreamGivesBack | packages/vhd-lib/Vhd/VhdAbstract.js:267-354 | In terms of the disk alone: the parsed items are its footer, its header with all fields but the places in the file, a table that leads to every block and to no other, its used parent locators in order with all their fields and data, and its blocks in order, each once and whole. |
| VhdStreamRoundTrip.ReadableWhen | packages/vhd-lib/parseVhdStream.js:138-156 | Which disks are readable, in numbers: every used parent locator has data, which fits its space, and every chunk is shorter than 1 GiB. |
| VhdExamples.EmptyLocator | packages/vhd-lib/parseVhdStream.js:138-156 | The stream of a disk with a used parent locator without data does not parse. |
| VhdStreamLength.Cut | packages/vhd-lib/createVhdStreamWithLength.js:13-36 | The end cutter gives the bytes up to the footer's offset and then the footer, whatever the chunks. |
| VhdStreamLength.BlockSpaceIsFull | packages/vhd-lib/createVhdStreamWithLength.js:70-76 | Its own formula for the space of a block agrees with the other one on all valid block sizes. |
| VhdStreamLength.PlaceInStream | packages/vhd-lib/createVhdStreamWithLength.js:70-76 | The computed footer offset never exceeds the true one, and is the true one if and only if the VHD has an end to find. |
| VhdStreamLength.WithLength | packages/vhd-lib/createVhdStreamWithLength.js:38-87 | It fails if and only if one chunk cannot hold the table. Else a streamed VHD passes byte for byte under any chunking if and only if it has an end to find; with a block it always has. |
| VhdExamples.LocatorLost | packages/vhd-lib/createVhdStreamWithLength.js:70-76 | A disk without blocks but with a parent locator, any chunks: what comes out is not what went in. |
| Geometry.ComputeGeometryForSize | packages/vhd-lib/_computeGeometryForSize.js:5-36 | Cylinders, heads and sectors fit their fields, and the geometry covers the capped size with less than one cylinder to spare; 17, 31, 63 or 255 sectors and the number of heads are chosen exactly when stated, by the size alone. |
| Geometry.CoversDisk | packages/vhd-lib/_computeGeometryForSize.js:5-36 | In bytes: the geometry covers the disk if and only if it has at most 65535 * 16 * 255 sectors, with less than a sector and a cylinder to spare; larger disks get exactly that size. |
| Geometry.TableCovers | packages/vhd-lib/createReadableSparseStream.js:76-84 | One table entry more than the size asks for always satisfies the header check against the enlarged size. |
| SparseLayout.CollectLasts | packages/vhd-lib/createReadableSparseStream.js:27-37 | The first pass finds, for each block, its last fragment, and lists the blocks in the order of these. |
| SparseLayout.CreateBat | packages/vhd-lib/createReadableSparseStream.js:27-46 | Each block with fragments, and no other, is put at its place, one after the other in the order in which they will be complete; it fails exactly when an address does not fit. |
| SparseStream.InsertFragment | packages/vhd-lib/createReadableSparseStream.js:107-113 | The fragment's sectors hold its data and are marked; the rest of the block is unchanged. |
| SparseStream.SectorAtIs | packages/vhd-lib/createReadableSparseStream.js:107-113 | Sector `d` of the disk is what the last fragment that has it contains at byte `512 d` minus its address. |
| SparseStream.SectorIsAbsent | packages/vhd-lib/createReadableSparseStream.js:107-113 | Without a fragment that has it a sector is absent. |
| SparseStream.SendFragment | packages/vhd-lib/createReadableSparseStream.js:115-136 | A block is sent when its last fragment arrives, at the place the first pass gave it. |
| SparseStream.GenerateBlocks | packages/vhd-lib/createReadableSparseStream.js:115-136 | The position assertion never fails if and only if no fragment repeats the last address of its block and every block's sector reads as used; then the blocks sent are exactly those of the table. |
| SparseDisk.CreateReadableSparseStream | packages/vhd-lib/createReadableSparseStream.js:48-149 | The stream has the announced length, parses, its footer is that of a new dynamic disk, whose size is what its geometry multiplies out to, and each sector reads as the last fragment that covers it and as absent elsewhere; exactly when building fails is stated. |
| SparseDisk.NewHeader | packages/vhd-lib/_createFooterHeader.js:38-52 | The header of a new disk: the table at byte 1536, the given number of entries, blocks of 2 MiB, and zeros for parent, locators and the rest. |
| VhdExamples.SameAddressTwice | packages/vhd-lib/createReadableSparseStream.js:115-136 | Two fragments at the same address are refused. |
| MatcherRoundTrip.QuotedParses | packages/complex-matcher/index.js:464-480 | A quoted and escaped string is read back as the string, whatever it contains. |
| MatcherRoundTrip.NameParses | packages/complex-matcher/index.js:455-490 | A string that prints back is read as a name, and its printed form decides which alternative reads it. |
| MatcherRoundTrip.TermOutcome | packages/complex-matcher/index.js:518-545 | A printed term, wherever it stands in a text, is read back as itself or breaks the parse, by a condition on its leaves alone. |
| MatcherRoundTrip.RoundTrip | packages/complex-matcher/index.js:43-305 | For every text that parses to a filter without regular expressions, the printed filter parses to the same filter, with -0 as 0, if its leaves are printable; otherwise it does not parse. |
| MatcherGrammar.WrittenParses | packages/complex-matcher/index.js:452-543 | Every filter without regular expressions, written out in the literal characters of the grammar, parses to itself; several in a row to their conjunction. |
| MatcherGrammar.NamesParse | packages/complex-matcher/index.js:481-532 | For all names `s` and `v` of digits, `_`, `-`, `.`, `$` and cased letters that are not numbers: `s`, `s?` and `s:v` parse to a string, a truthy property and a property. |
| MatcherGrammar.OnlyPlainNames | packages/complex-matcher/index.js:9-20 | A text parses to the string that it is if and only if it is such a name. |
| MatcherGrammar.BareComesBack | packages/complex-matcher/index.js:17-20 | A string that is printed unquoted consists of what is read back if and only if it has no unit from 0xD800 to 0xDFFF. |
| MatcherGrammar.SpacedProperty | packages/complex-matcher/index.js:530-533 | A property may have spaces around its colon; likewise `SpacedName`, `SpacedNot`, `SpacedGroup`, `SpacedOr` and `SpacedText` for the other forms. |
| MatcherGrammar.PatternParses | packages/complex-matcher/index.js:491-517 | `/p/` and `/p/i` parse to the regular expression `p`, without and with the flag. |
| MatcherGrammar.PatternComesBack | packages/complex-matcher/index.js:491-517 | A printed regular expression is read back with its source and its flag, if the source has no slash or backslash. |
| MatcherExamples.ExponentLost | packages/complex-matcher/index.js:64-78 | A comparison with a number that prints with an exponent parses and does not parse again once printed. |
| MatcherExamples.PairLost | packages/complex-matcher/index.js:9-20 | So does a string of one letter of two UTF-16 units. |
| MatcherExamples.NegativeZeroLost | packages/complex-matcher/index.js:64-78 | A comparison with -0 comes back as one with 0. |
| FatTable.StoredEntry | @vates/fatfs/vol.js:111-133 | A stored entry reads back and no other entry changes, also when two 12-bit entries share three bytes. |
| FatTable.EntryDigits | @vates/fatfs/vol.js:85-99 | Which bytes an entry consists of, and with which weights, for entries of 12, 16 and 28 bits, in numbers. |
| FatTable.Meanings | @vates/fatfs/vol.js:101-108 | Exactly which values of each type mean the end of a chain, a bad cluster, a link, a free or an invalid entry. |
| FatTable.OnlyFat12Straddles | @vates/fatfs/vol.js:111-133 | Whatever the sector size, only entries of 12 bits lie in two sectors. |
| FatTable.HalfStoredEntry | @vates/fatfs/vol.js:111-133 | After the first of two sector writes the entry mixes its old and new values in one stated way, and no other entry changes. |
| FatTable.HalfIsOldOrNew | @vates/fatfs/vol.js:111-133 | It reads as the old or the new value if and only if the sector ends between its digits or these agree. |
| FatTable.LinksReadBackWhen | @vates/fatfs/vol.js:85-109 | Every cluster number that may be allocated reads back as a link if and only if the count of clusters leaves out the reserved values. |
| FatTable.LargestVolumesDoNot | @vates/fatfs/vol.js:22-33 | The largest volumes that the code takes as FAT12 and FAT16 do not meet that. |
| FatTable.EndsReadAs | @vates/fatfs/vol.js:101-108 | A value reads as the end of a chain if and only if the standard takes it as one and it is not the first of these, which reads as reserved. |
| FatTable.NamedReadsAs | @vates/fatfs/vol.js:101-116 | No status stored by its name reads as free; it reads as a link if and only if it is not above the reserved ones. |
| FatChain.Volume.AllocateInFat | @vates/fatfs/vol.js:135-151 | The first free cluster from the hint on is marked as an end of chain, in one or two sector writes; without one the table is unchanged; stopped on the way, no chain has changed. Two writes suffice. |
| FatMount.Mount | @vates/fatfs/vol.js:9-33 | A boot sector is accepted if and only if its sector size is the device's and not zero and its volume fits the device; the first data sector, the number of clusters and the type are as stated. |
| FatMount.ClusterExists | @vates/fatfs/vol.js:17-45 | Cluster `n` lies on the volume if and only if `n` is at most the number of clusters plus one; the allocator stops two short of that. |
| FatMount.RoomForAll | @vates/fatfs/vol.js:135-151 | Every cluster that the allocator can give out lies on the device. |
| FatChain.Volume.StoreToFat | @vates/fatfs/vol.js:111-133 | The entry is stored in one sector write, or two where it lies in two sectors; stopped, it is unchanged or stored up to the sector's end; with two writes it succeeds. |
| FatChain.HalfLinked | @vates/fatfs/chains.js:66-100 | A half-stored link from the end of a chain leaves the old chain or the grown one if and only if the numbers do not break it, and no other chain changes. |
| FatChain.NeverTorn | @vates/fatfs/vol.js:111-133 | If no entry of the table tears at the end of a sector, no stop leaves a torn chain. |
| FatChain.TornExample | @vates/fatfs/vol.js:111-133 | With sectors of 512 bytes, linking cluster 682 to 683 can leave it linked to 4011. |
| FatChain.ClusterChain.ExtendCacheToInclude | @vates/fatfs/chains.js:117-128 | Link `i` of the chain, or its end, through a cache that is always a beginning of the chain. |
| FatChain.ClusterChain.ExpandChainToLength | @vates/fatfs/chains.js:130-147 | The chain grows to the given length if and only if it and the free clusters after its end suffice, unless the volume stops; with four writes a cluster it does not. Wherever growing stops, only formerly free entries and the old tail have changed, and the chain is finite, ended and without repetition, or its last link is torn. No free cluster is lost, but for one if it stops: it is the cluster being added, and it is lost if and only if its end mark has been stored, or a part of it that shows, and the link to it does not read back. |
| FatChain.GrownApart | @vates/fatfs/chains.js:130-147 | While a chain grows, every other chain stays intact and disjoint from it. |
| FatChain.GrownTwice | @vates/fatfs/chains.js:130-147 | Growing in several steps is growing. |
| FatDevice.SectorCache.ReadSectors | @vates/fatfs/cache.js:18-52 | Reading through the cache gives what the device holds, and the cache keeps agreeing with it. |
| FatDevice.SectorCache.WriteSectors | @vates/fatfs/cache.js:53-58 | Writing changes exactly these sectors of the device, or none if it has stopped, and the cache keeps agreeing with it. |
| FatFile.Groups | @vates/fatfs/chains.js:166-203 | The runs of neighbouring clusters, as long as they can be, one after the other, are exactly the chain's sectors. |
| FatFile.ClusterPlaces | @vates/fatfs/vol.js:43-45 | Cluster 2 starts at the first data sector, and each cluster where the one before it ends. |
| FatFile.SectorPlace | @vates/fatfs/chains.js:166-203 | Sector `k` of a chain is sector `k % sectorsPerCluster` of its cluster `k / sectorsPerCluster`, as a number of the device. |
| FatFile.FileChain.ReadSectors | @vates/fatfs/chains.js:205-220 | The sectors of the chain at a position, or the end of the file; by number, each is the device sector `firstDataSector + (c - 2) * sectorsPerCluster + q` of its cluster `c`. |
| FatFile.WriteGroups | @vates/fatfs/chains.js:223-238 | The runs are written each on its own, in any order; when the device stops, any of them have been written and nothing else has changed; with a write for each sector it does not stop. |
| FatFile.FileChain.WriteSectors | @vates/fatfs/chains.js:223-238 | Exactly these sectors of the chain, by the same numbers, change, the chain grows if need be, and no sector outside it changes; it succeeds if and only if the file can have that many sectors, unless the volume stops, which leaves any of the runs written. |
| FatBytes.ReadFromPosition | @vates/fatfs/chains.js:26-63 | The bytes at a position, for every offset and length, and all of them when the chain has them. |
| FatBytes.ByteOfFile | @vates/fatfs/chains.js:26-63 | Byte `p` of a file, in numbers: which byte of which device sector it is. |
| FatBytes.WriteToPosition | @vates/fatfs/chains.js:66-100 | Exactly the addressed bytes change, and the write succeeds if and only if the file can reach that far, unless the volume stops, for which enough writes are stated. When the volume is full, a first part of the bytes has changed; when it stops, some of them; other files are untouched. |
| FatBytes.WriteThenRead | @vates/fatfs/chains.js:26-100 | What has been written is what is read back, for every offset and length; given enough writes, it is written if and only if the file can reach that far. |
| Variance.SpreadNonNegative | packages/xo-server-load-balancer/src/plan.js:717-740 | The squared number of hosts times the variance of their counts is a natural number. |
| Variance.ShiftSpread | packages/xo-server-load-balancer/src/plan.js:742-772 | Moving one machine keeps the total and changes that number by `2n(b - a + 1)`. |
| Placement.MovedTotal | packages/xo-server-load-balancer/src/plan.js:637-652 | A migration keeps the total of every tag. |
| AntiAffinity.TaggedHosts.ComputeVariance | packages/xo-server-load-balancer/src/plan.js:717-740 | The shifted algorithm gives the variance, whatever the shift. |
| AntiAffinity.TaggedHosts.VmToMigrate | packages/xo-server-load-balancer/src/plan.js:742-772 | The first of the candidates whose move lowers the variance most, or none if none lowers it; the counts are back as they were. |
| AntiAffinity.TaggedHosts.FindMove | packages/xo-server-load-balancer/src/plan.js:563-624 | The move from the last source that has one, by count and then by memory in use, to the first destination that can take it, by count, then pool, then free memory, of the first machine that lowers the variance most; none if and only if there is no acceptable move at all. |
| AntiAffinity.BestIsOne | packages/xo-server-load-balancer/src/plan.js:563-624 | At most one move is the best one: equal keys are decided by the order of the hosts and of the machines. |
| AntiAffinity.TaggedHosts.Migrate | packages/xo-server-load-balancer/src/plan.js:637-652 | Counts, free memory and candidates follow the placement; no machine migrates twice. |
| AntiAffinity.TaggedHosts.ProcessTag | packages/xo-server-load-balancer/src/plan.js:563-668 | Terminates with no acceptable move left, after at most as many migrations as the scaled variance fell by; the totals are kept, and the range of the counts never widens. |
| AntiAffinity.EasyBalanced | packages/xo-server-load-balancer/src/plan.js:563-668 | If machines have one watched tag, may migrate and always find memory, no acceptable move left means that the counts differ by at most one. |
| AntiAffinity.TaggedHosts.ProcessAntiAffinity | packages/xo-server-load-balancer/src/plan.js:516-561 | The whole plan, over all tags: totals are kept, and in that case the counts of every tag end up differing by at most one. |
| VcpuPlacement.RoundedMove | packages/xo-server-load-balancer/src/plan.js:394-409 | A move of at most the rounded-up difference leaves the source less than one virtual CPU below its share and the destination less than one above. |
| VcpuPlacement.RunConserves | packages/xo-server-load-balancer/src/plan.js:385-473 | No run of migrations changes the number of virtual CPUs. |
| VcpuPlacement.RunNearer | packages/xo-server-load-balancer/src/plan.js:385-473 | No run takes a host farther from its share than it was, but for less than one virtual CPU. |
| VcpuPlacement.RunImproves | packages/xo-server-load-balancer/src/plan.js:385-473 | If every machine has virtual CPUs, every migration lowers the sum of the squared distances to the ideal shares. |
| VcpuPlacement.SomeBelow | packages/xo-server-load-balancer/src/plan.js:320-380 | While a host is above its share, another one is below: there is always a destination. |
| VcpuPlacement.Sources | packages/xo-server-load-balancer/src/plan.js:344-359 | Exactly the hosts with more virtual CPUs than CPUs and one above their share or more, those with the highest ratio first, then those with the least free memory. |
| VcpuPlacement.Destinations | packages/xo-server-load-balancer/src/plan.js:370-380 | Exactly the other hosts below their share, those of other pools first, then those with the lowest ratio, then those with the most free memory. |
| VcpuPlacement.Fitting | packages/xo-server-load-balancer/src/plan.js:411-417 | Exactly the machines that fit, the biggest first, and those of one size in their order. |
| VcpuPlacement.VcpuHosts.Migrate | packages/xo-server-load-balancer/src/plan.js:425-455 | A migration keeps the counts and averages in step with the placement; the source gives, nobody else loses. |
| VcpuPlacement.VcpuHosts.Fill | packages/xo-server-load-balancer/src/plan.js:385-470 | It stops exactly when the source is close enough to its share; else no machine of the source is acceptable for the destination any more; when nothing refuses, a destination is left at its share or above. |
| VcpuPlacement.VcpuHosts.ProcessVcpuPrepositioning | packages/xo-server-load-balancer/src/plan.js:314-475 | Nothing moves if the hosts' ratios are too alike or the pool is too loaded. Otherwise every migration is from a host one above its share or more to one below, within the CPU and memory thresholds, and no machine moves twice. At the end a migration is acceptable only from a host with no more virtual CPUs than CPUs, or of a machine of at most one virtual CPU to a host that was above its share at first. If machines have one virtual CPU and nothing refuses, no host with more virtual CPUs than CPUs stays one or more above its share. |
| VcpuPlacement.RatiosAlike | packages/xo-server-load-balancer/src/plan.js:327-333 | The test on the extreme ratios holds if and only if every host has more than nine tenths of the ratio of every other. |
| AuditChain.ChainInjective | @xen-orchestra/audit-core/index.js:82-99 | Different records give different ids. |
| AuditChain.AcceptedIsIntact | @xen-orchestra/audit-core/index.js:112-142 | What is accepted between two ids is exactly the records that the newest id stands for, each one in the store. |
| AuditChain.IntactIsAccepted | @xen-orchestra/audit-core/index.js:112-142 | An intact chain is accepted, with its number of records. |
| AuditChain.RefusedAt | @xen-orchestra/audit-core/index.js:129-141 | What is refused is stopped at one id, which is missing or altered as reported; the records after it are intact, and as many as reported. |
| AuditChain.RefusedThere | @xen-orchestra/audit-core/index.js:129-141 | Wherever an intact part of a chain leads to an id that is missing or altered, the check reports exactly that id, with the number of records after it. |
| AuditChain.AcceptedAgree | @xen-orchestra/audit-core/index.js:112-142 | Two stores accepted between the same two ids agree on every record between. |
| AuditCore.AuditLog.Add | @xen-orchestra/audit-core/index.js:71-99 | The log holds one more record, at the end of its chain, and nothing else. |
| AuditCore.AuditLog.DeleteRangeAndRewrite | @xen-orchestra/audit-core/index.js:170-208 | The log ends with the chain of the survivors, and holds exactly it if and only if the chain is not mirrored; when it is, one of the new records is missing. |
| AuditCore.MirroredExample | @xen-orchestra/audit-core/index.js:170-208 | Three records are logged, the first and the last alike, and the first is deleted: the log is not accepted any more. |
| AuditCore.TimesApart | @xen-orchestra/audit-core/index.js:82-99 | Records with pairwise different times are never mirrored. |
| AuditCore.DeleteAndCheck | @xen-orchestra/audit-core/index.js:170-208 | After a deletion the whole log is accepted, with every survivor, if and only if the chain was not mirrored. |
| XoCollection.StillPending | packages/xo-collection/src/collection.js:342-363 | Whatever is done to the collection, the buffer explains the difference to what listeners know. |
| XoCollection.Collection.Add | packages/xo-collection/src/collection.js:117-124 | The item is there unless its key was; listeners will be told. |
| XoCollection.Collection.Set | packages/xo-collection/src/collection.js:137-146 | The item is there with the new value, and the pending action is an addition or an update as it should. |
| XoCollection.Collection.Flush | packages/xo-collection/src/collection.js:258-304 | The last of the nested flushes reports exactly the net change since the last flush and empties the buffer; a second call of the same one is an error. |
| CollectionIndex.Index.OnUpdate | packages/xo-collection/src/index.js:92-115 | The groups follow the updates: an item leaves its old group and joins its new one, if it has one. |
| CollectionIndex.CanFollow | packages/xo-collection/src/index.js:49-59 | An index that takes all items when it is attached knows enough to follow if and only if no addition is pending. |
| CollectionIndex.Index.Sweep | packages/xo-collection/src/index.js:32-41 | Only the empty groups go. |
| CollectionRun.RunAndCompare | packages/xo-collection/src/index.js:32-127 | After any run of changes, in-place ones included, with nested buffering, the items are those that the changes leave one after the other, and an index attached while no addition was pending is, once flushed and swept, the index that would be built from scratch. |
| CollectionRun.StaleForEver | packages/xo-collection/src/index.js:49-59 | If an addition is pending when the index is attached, removing that item leaves it in the index through every later run of changes to other items, their flushes and a sweep. |
| MultiKeyMap.GetSet | @vates/multi-key-map/index.js:56-87 | Setting a sequence of keys changes the value of that sequence and of no other, prefixes included. |
| MultiKeyMap.GetDelete | @vates/multi-key-map/index.js:10-37 | Deleting removes the value of that sequence and of no other. |
| MultiKeyMap.EntriesAre | @vates/multi-key-map/index.js:39-54 | What `entries` lists are the bindings. |
| MultiKeyMap.EntriesOnce | @vates/multi-key-map/index.js:39-54 | It lists no key sequence twice. |
| MultiKeyMap.SetUndefined | @vates/multi-key-map/index.js:66-87 | Setting `undefined` leaves no needless node if and only if it is at the root, or all keys but the last lead to nodes and no bare value stands at the end. |
| MultiKeyMap.MultiKeyMap.Set | @vates/multi-key-map/index.js:123-125 | The map gets one binding; every node keeps a child, and the root is absent exactly when the map is empty. |
| MultiKeyMap.MultiKeyMap.Delete | @vates/multi-key-map/index.js:111-113 | The map loses one binding; every node keeps a child, and the root is absent exactly when the map is empty. |
| MultiKeyMap.MultiKeyMap.Entries | @vates/multi-key-map/index.js:115-117 | Each binding of the map once. |

## Left out

- VhdFile.VhdFile.EnsureBatSize: growth by more than one full block, from a table that does not start at a sector, or into a parent locator, because the code frees less than it needs there.
- VhdFile.VhdFile.CreateBlock: a block whose sector number would be exactly 0xFFFFFFFF is refused like one that does not fit, because the file format takes that number as "unused".
- VhdMerge.Merge: writing the state fails only when the process stops; other errors of the state file, which the code logs and ignores, are not modelled apart from a state that lags behind.
- VhdSectors.WriteData: buffers that end inside a sector or past the table, because `writeData` itself does not handle these.
- ConcurrentMerge.MergeInParallel: blocks of the child past the end of the parent's table file, whose bits the code cannot set; files other than block files that are torn by a stop; the footer, which the last step writes after the table.
- MatcherRoundTrip.RoundTrip: filters with regular-expression terms, because their printed source depends on JavaScript's `RegExp`; `MatcherGrammar.PatternComesBack` has single ones with a plain source.
- AntiAffinity.TaggedHosts.ProcessAntiAffinity: CPU averages do not decide anything there and are kept as data; floating-point variances are reals.
- VcpuPlacement.VcpuHosts.ProcessVcpuPrepositioning: rounding of floating-point ratios; CPU averages are integers.
- AuditCore.AuditLog.CheckIntegrity: the first test, that `newest` is reachable from the last id when the two differ, and AuditCore.AuditLog.DeleteRangeAndRewrite: errors of the storage that it catches and collects.
- FatBytes.WriteToPosition: shrinking a file, and zero-length transfers that put an empty entry in the sector cache; a write of a sector either happens or does not.
- FatMount.Mount: a boot sector with no sectors per cluster, by which the code divides without a check, and the signature bytes.
- FatChain.Volume.StoreToFat: sector sizes that are not a multiple of four, because the standard has none.
- CollectionIndex.Index.OnUpdate: index lists hold values; in the code they hold references, so a change in place shows in the list before the event.
- MultiKeyMap.MultiKeyMap.Set: the tree is a value that is replaced, not one updated in place.
- Parent locator writes (`_ensureSpaceForParentLocators`, `_writeParentLocatorData`), and the clean-up and renaming after a merge.
- Headers, parent locators and compression of a `VhdDirectory`, encrypted blocks, aliases and remote handlers.
- The merged size that the concurrent merge reports, which concurrent updates can lose.
- The shared array of parent locators that `stream()` updates: each stream starts from the locators of the file.
- `sectorChain`, directories, long names and file descriptors of the FAT engine; its file allocation table is one run of bytes, and which sectors the cache evicts is arbitrary.
- Iterators that fail, and items that are added to the iterable while `asyncEach` runs.
- Invalid keys, `UniqueIndex`, `View`, and listeners that change the collection during a flush.
- Matching values against a filter, and the helpers that edit property clauses.
- The density and performance plans and the averaging of statistics.
- Clock and unique identifiers of the sparse builder are parameters.
- The generator `values` of the map with composite keys, which walks like `entries`.
