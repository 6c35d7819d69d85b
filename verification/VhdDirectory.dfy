/**
 * A VHD kept as a directory, a file per block and a table of bits, and the block files of the child
 * that is merged into it. Blocks reach their files at once, the table stays in memory until it is written.
 */
module VhdDirectory {
  import opened Bytes

  type Disk = map<nat, Buffer>

  /** What is in the files: block files of the parent and of the child, and the parent's table. */
  datatype Files = Files(blocks: Disk, child: Disk, listed: set<nat>)

  /** What a reader finds: the blocks that the table lists. */
  function Visible(blocks: Disk, table: set<nat>): Disk { map b | b in table && b in blocks :: blocks[b] }

  class VhdDirectory {
    var files: Files
    /** The table in memory. */
    var table: set<nat>

    /** Opened, and its table read. */
    constructor (files: Files)
      ensures this.files == files && table == files.listed
    {
      this.files, table := files, files.listed;
    }

    predicate ContainsBlock(id: nat)
      reads this
    {
      id in table
    }

    /** The file of a block is written, and its bit is set in memory. */
    method WriteEntireBlock(id: nat, buffer: Buffer)
      modifies this
      ensures files == old(files).(blocks := old(files).blocks[id := buffer]) && table == old(table) + {id}
    {
      files := files.(blocks := files.blocks[id := buffer]);
      table := table + {id};
    }

    /** A block whose file is not completely written. */
    method WritePartly(id: nat, content: Buffer)
      modifies this`files
      ensures files == old(files).(blocks := old(files).blocks[id := content])
    {
      files := files.(blocks := files.blocks[id := content]);
    }

    /** The table is written as it was at some time since this write became the only one. */
    method WriteBlockAllocationTable(snapshot: set<nat>)
      modifies this`files
      ensures files == old(files).(listed := snapshot)
    {
      files := files.(listed := snapshot);
    }

    /**
     * mergeBlock, up to the write of the table: the child's file becomes the parent's. `ready` says that
     * the table need not be written.
     */
    method MoveBlock(id: nat) returns (ready: bool)
      requires id in files.child
      modifies this
      ensures ready == (id in old(table)) && table == old(table) + {id}
      ensures files == Files(old(files).blocks[id := old(files).child[id]], old(files).child - {id}, old(files).listed)
    {
      ready := ContainsBlock(id);
      files := Files(files.blocks[id := files.child[id]], files.child - {id}, files.listed);
      table := table + {id};
    }

    /** mergeBlock when the child's file is missing: a resumed merge looks for it in the parent. */
    method FindBlock(id: nat, isResuming: bool, size: nat) returns (ok: bool)
      modifies this`table
      ensures ok == (isResuming && id in files.blocks && |files.blocks[id]| == size)
      ensures table == if ok then old(table) + {id} else old(table)
    {
      ok := isResuming && id in files.blocks && |files.blocks[id]| == size;
      if ok {
        table := table + {id};
      }
    }
  }
}
