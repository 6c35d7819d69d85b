/**
 * The remote storage, reduced to what one merge sees of it: the parent's file and the merge state
 * file beside it. Every write is one atomic step, and a process may stop between any two of them:
 * `steps` is the number of writes it completes before that, and every later write fails.
 */
module Storage {
  import opened Options
  import opened Bytes
  import opened VhdFormat

  /** The merge state as stored: the fields a resumed merge reads. */
  datatype MergeState = MergeState(parentHeader: nat, childHeader: nat, currentBlock: nat)

  class Handler {
    var file: Buffer
    var steps: nat
    var mergeState: Option<MergeState>

    constructor (file: Buffer, steps: nat)
      ensures this.file == file && this.steps == steps && this.mergeState == None
    {
      this.file, this.steps, this.mergeState := file, steps, None;
    }

    method Write(offset: nat, data: Buffer) returns (ok: bool)
      modifies this`file, this`steps
      ensures ok == (old(steps) > 0)
      ensures ok ==> steps == old(steps) - 1 && Patched(old(file), file, offset, data)
      ensures !ok ==> steps == 0 && file == old(file)
    {
      ok := steps > 0;
      if ok {
        steps := steps - 1;
        file := Patch(file, offset, data);
      }
    }

    /** A short read fails the caller's assertion on the number of bytes read. */
    method Read(offset: nat, n: nat) returns (r: Option<Buffer>)
      ensures r == if offset + n <= |file| then Some(file[offset..offset + n]) else None
    {
      r := if offset + n <= |file| then Some(file[offset..offset + n]) else None;
    }

    /** Replaces the state file; a failure is only logged by the caller. */
    method WriteState(state: MergeState)
      modifies this`mergeState, this`steps
      ensures if old(steps) > 0 then steps == old(steps) - 1 && mergeState == Some(state)
              else steps == 0 && mergeState == old(mergeState)
    {
      if steps > 0 {
        steps := steps - 1;
        mergeState := Some(state);
      }
    }
  }
}
