/**
 * The loop over blocks of a merge into a directory, several blocks at once: the `merging` set, the
 * `currentBlock` of the merge state and the state file, driven by the scheduler of async-each.
 */
module ConcurrentMerge {
  import opened Options
  import opened Bytes
  import opened AsyncEach
  import opened VhdDirectory

  predicate Ascending(s: seq<nat>) { forall i, j | 0 <= i < j < |s| :: s[i] < s[j] }

  /** The blocks of `child` from `first` on, in order. */
  method SelectBlocks(child: Disk, first: nat, maxTableEntries: nat) returns (toMerge: seq<nat>)
    ensures Ascending(toMerge) && Selected(toMerge, child, first, maxTableEntries)
  {
    toMerge := [];
    var block := first;
    while block < maxTableEntries
      invariant first <= block && (block <= maxTableEntries || toMerge == [])
      invariant Ascending(toMerge) && Selected(toMerge, child, first, block)
    {
      forall i | 0 <= i < |toMerge| ensures toMerge[i] < block {
        assert toMerge[i] in toMerge;
      }
      if block in child {
        toMerge := toMerge + [block];
      }
      block := block + 1;
    }
  }

  ghost predicate Selected(toMerge: seq<nat>, child: Disk, first: nat, end: nat) {
    forall b: nat :: b in toMerge <==> first <= b < end && b in child
  }

  /** The least element: `Math.min(...merging)`. */
  function Least(s: set<nat>): (m: nat)
    requires s != {}
    ensures m in s && forall x | x in s :: m <= x
  {
    HasLeast(s, var x :| x in s; x);
    var m :| m in s && forall x | x in s :: m <= x;
    m
  }

  lemma {:induction false} HasLeast(s: set<nat>, x: nat)
    requires x in s
    ensures exists m :: m in s && forall y | y in s :: m <= y
    decreases x
  {
    if y :| y in s && y < x {
      HasLeast(s, y);
    } else {
      assert forall y | y in s :: x <= y;
    }
  }

  // ----- what is in the files ------------------------------------------------------------------------

  /** What is merged into what, and how: `renames` if the child's files are moved and not copied. */
  datatype Job = Job(original: Disk, child: Disk, maxTableEntries: nat, size: nat, renames: bool) {
    predicate Valid() { forall b | b in child :: b < maxTableEntries && |child[b]| == size }

    /** The child's block where it has one, else the parent's. */
    function Overlay(): Disk { original + child }
  }

  /** The block's file has the child's content. */
  predicate Has(blocks: Disk, disk: Disk, b: nat)
    requires b in disk
  {
    b in blocks && blocks[b] == disk[b]
  }

  /** What does not depend on the state: nothing of the parent is lost. */
  ghost predicate Kept(j: Job, f: Files) {
    && (forall b | b in j.original :: b in f.listed)
    && (forall b | b in f.listed :: b in f.blocks && (b in j.original || b in j.child))
    && (forall b | b in j.original && b !in j.child :: Has(f.blocks, j.original, b))
    && (forall b | b in j.child ::
          if b in f.child then f.child[b] == j.child[b] else j.renames && Has(f.blocks, j.child, b))
    && (!j.renames ==> forall b | b in f.listed :: b in j.original)
  }

  /** The files of all blocks below the saved one have the child's content. */
  ghost predicate FilesBelow(j: Job, f: Files, saved: nat) {
    forall b | b in j.child && b < saved :: Has(f.blocks, j.child, b)
  }

  /** What any number of stopped merges leaves. */
  ghost predicate Left(j: Job, f: Files, saved: nat) { Kept(j, f) && FilesBelow(j, f, saved) }

  /** Blocks that count as merged but that the table in the file does not list. */
  ghost function Lost(j: Job, f: Files, saved: nat): set<nat> { set b | b in j.child && b < saved && b !in f.listed }

  /** Blocks whose file has been moved but that the table in the file does not list. */
  ghost function Unlisted(j: Job, f: Files): set<nat> { set b | b in j.child && b !in f.child && b !in f.listed }

  // ----- the loop, by value ----------------------------------------------------------------------------

  /** The state of the loop, by value: `index` blocks were started, and the rest of them merged or merging. */
  ghost predicate Tracked(toMerge: seq<nat>, index: nat, merging: set<nat>, merged: set<nat>) {
    && index <= |toMerge|
    && (forall b | b in merging || b in merged :: b in toMerge[..index])
    && (forall b | b in toMerge[..index] :: b in merging || b in merged)
    && (forall b | b in merged :: b !in merging)
  }

  /** Each block being merged has a pending promise. */
  ghost predicate Watched(toMerge: seq<nat>, index: nat, merging: set<nat>, pending: set<nat>) {
    index <= |toMerge| && forall i: nat | i < index && toMerge[i] in merging :: i in pending
  }

  lemma StartNext(toMerge: seq<nat>, index: nat, merging: set<nat>, merged: set<nat>, pending: set<nat>)
    requires Ascending(toMerge) && Tracked(toMerge, index, merging, merged) && index < |toMerge|
    ensures toMerge[index] !in merging + merged
    ensures Watched(toMerge, index, merging, pending)
      ==> Watched(toMerge, index + 1, merging + {toMerge[index]}, pending + {index})
    ensures Tracked(toMerge, index + 1, merging + {toMerge[index]}, merged)
  {
    assert toMerge[..index + 1] == toMerge[..index] + [toMerge[index]];
    assert forall i | 0 <= i < index :: toMerge[i] < toMerge[index];
  }

  ghost predicate NoneSkipped(toMerge: seq<nat>, currentBlock: nat, merged: set<nat>) {
    forall b: nat | b in toMerge && b < currentBlock :: b in merged
  }

  /** What is selected and below the least block being merged has been merged. */
  lemma BelowMerging(toMerge: seq<nat>, index: nat, merging: set<nat>, merged: set<nat>)
    requires Ascending(toMerge) && Tracked(toMerge, index, merging, merged) && merging != {}
    ensures NoneSkipped(toMerge, Least(merging), merged)
  {
    var least := Least(merging);
    assert least in toMerge[..index];
    var i :| 0 <= i < index && toMerge[i] == least;
    forall b: nat | b in toMerge && b < least ensures b in merged {
      var j :| 0 <= j < |toMerge| && toMerge[j] == b;
      assert j < i && b in toMerge[..index] && b !in merging;
    }
  }

  /** Block `toMerge[i]` is merged. */
  lemma FinishNext(toMerge: seq<nat>, index: nat, merging: set<nat>, merged: set<nat>, pending: set<nat>,
                   currentBlock: nat, i: nat)
    requires Ascending(toMerge) && Tracked(toMerge, index, merging, merged)
    requires NoneSkipped(toMerge, currentBlock, merged) && i < |toMerge| && toMerge[i] in merging
    ensures Tracked(toMerge, index, merging - {toMerge[i]}, merged + {toMerge[i]}) && toMerge[i] !in merged
    ensures Watched(toMerge, index, merging, pending) ==> Watched(toMerge, index, merging - {toMerge[i]}, pending)
    ensures currentBlock <= Least(merging) && NoneSkipped(toMerge, Least(merging), merged + {toMerge[i]})
  {
    BelowMerging(toMerge, index, merging, merged);
    assert Least(merging) in toMerge[..index];
  }

  lemma AllMerged(toMerge: seq<nat>, merging: set<nat>, merged: set<nat>)
    requires Tracked(toMerge, |toMerge|, merging, merged) && Watched(toMerge, |toMerge|, merging, {})
    ensures merging == {} && forall b: nat | b in toMerge :: b in merged
  {
    assert toMerge[..|toMerge|] == toMerge;
  }

  /** Where the merges of the blocks stand: before their file is in place, waiting for the table, at the end. */
  ghost predicate Phases(merging: set<nat>, moving: set<nat>, listing: set<nat>, ready: set<nat>) {
    merging == moving + listing + ready && moving !! listing && moving !! ready && listing !! ready
  }

  /** What has been done to the directory since the loop started from the files `start`, for the blocks `marked`. */
  ghost predicate Progress(j: Job, start: Files, f: Files, table: set<nat>, marked: set<nat>, listing: set<nat>) {
    && table == start.listed + marked
    && start.listed <= f.listed <= table && (!j.renames ==> f.listed == start.listed)
    && f.child == (if j.renames then start.child - marked else start.child)
    && (forall b | b in marked :: b in j.child && Has(f.blocks, j.child, b))
    && (listing != {} ==> j.renames)
    && (j.renames ==> forall b | b in marked && b !in listing :: b in f.listed || b !in start.child)
  }

  /** How many awaits the blocks being merged have still to come to, at most. */
  function Awaits(moving: set<nat>, listing: set<nat>, ready: set<nat>): nat { 3 * |moving| + 2 * |listing| + |ready| }

  lemma StartAwaits(moving: set<nat>, listing: set<nat>, ready: set<nat>, b: nat)
    ensures Awaits(moving + {b}, listing, ready) <= Awaits(moving, listing, ready) + 3
  {
    assert moving + {b} == moving || |moving + {b}| == |moving| + 1;
  }

  lemma NextAwaits(moving: set<nat>, listing: set<nat>, ready: set<nat>, b: nat)
    requires moving !! listing && moving !! ready && listing !! ready
    ensures b in moving ==> Awaits(moving - {b}, listing + {b}, ready) < Awaits(moving, listing, ready)
    ensures b in moving ==> Awaits(moving - {b}, listing, ready + {b}) < Awaits(moving, listing, ready)
    ensures b in listing ==> Awaits(moving, listing - {b}, ready + {b}) < Awaits(moving, listing, ready)
    ensures b in ready ==> Awaits(moving, listing, ready - {b}) < Awaits(moving, listing, ready)
  {
  }

  lemma StartPhases(merging: set<nat>, moving: set<nat>, listing: set<nat>, ready: set<nat>, b: nat)
    requires Phases(merging, moving, listing, ready) && b !in merging
    ensures Phases(merging + {b}, moving + {b}, listing, ready)
  {
  }

  /** Block `toMerge[index]` is started. */
  lemma Started(toMerge: seq<nat>, index: nat, merging: set<nat>, moving: set<nat>, listing: set<nat>,
                ready: set<nat>, merged: set<nat>, pending: set<nat>)
    requires Ascending(toMerge) && Tracked(toMerge, index, merging, merged) && index < |toMerge|
    requires Phases(merging, moving, listing, ready)
    ensures Tracked(toMerge, index + 1, merging + {toMerge[index]}, merged)
    ensures Watched(toMerge, index, merging, pending)
      ==> Watched(toMerge, index + 1, merging + {toMerge[index]}, pending + {index})
    ensures Phases(merging + {toMerge[index]}, moving + {toMerge[index]}, listing, ready)
    ensures Awaits(moving + {toMerge[index]}, listing, ready) <= Awaits(moving, listing, ready) + 3
  {
    StartNext(toMerge, index, merging, merged, pending);
    StartPhases(merging, moving, listing, ready, toMerge[index]);
    StartAwaits(moving, listing, ready, toMerge[index]);
  }

  lemma NextPhases(merging: set<nat>, moving: set<nat>, listing: set<nat>, ready: set<nat>, b: nat)
    requires Phases(merging, moving, listing, ready)
    ensures b in merging <==> b in moving || b in listing || b in ready
    ensures moving !! listing && moving !! ready && listing !! ready
    ensures b in moving ==> Phases(merging, moving - {b}, listing + {b}, ready)
    ensures b in moving ==> Phases(merging, moving - {b}, listing, ready + {b})
    ensures b in listing ==> Phases(merging, moving, listing - {b}, ready + {b})
    ensures b in ready ==> Phases(merging - {b}, moving, listing, ready - {b})
  {
  }

  /** The blocks whose file is in place and whose bit is set in memory. */
  ghost function Begun(merged: set<nat>, listing: set<nat>, ready: set<nat>): set<nat> { merged + listing + ready }

  lemma NextBegun(merged: set<nat>, listing: set<nat>, ready: set<nat>, b: nat)
    ensures Begun(merged, listing + {b}, ready) == Begun(merged, listing, ready) + {b}
    ensures Begun(merged, listing, ready + {b}) == Begun(merged, listing, ready) + {b}
    ensures b in listing ==> Begun(merged, listing - {b}, ready + {b}) == Begun(merged, listing, ready)
    ensures b in ready ==> Begun(merged + {b}, listing, ready - {b}) == Begun(merged, listing, ready)
    ensures b in Begun(merged, listing, ready) <==> b in merged || b in listing || b in ready
  {
  }

  lemma Finished(merging: set<nat>, moving: set<nat>, listing: set<nat>, ready: set<nat>, merged: set<nat>, b: nat)
    requires Phases(merging, moving, listing, ready) && b in ready
    ensures b in merging && Phases(merging - {b}, moving, listing, ready - {b})
    ensures Begun(merged + {b}, listing, ready - {b}) == Begun(merged, listing, ready)
    ensures Awaits(moving, listing, ready - {b}) < Awaits(moving, listing, ready)
    ensures b !in merged ==> |merged + {b}| == |merged| + 1
  {
    NextPhases(merging, moving, listing, ready, b);
    NextBegun(merged, listing, ready, b);
    NextAwaits(moving, listing, ready, b);
  }

  lemma InPlace(merging: set<nat>, moving: set<nat>, listing: set<nat>, ready: set<nat>, merged: set<nat>, b: nat)
    requires Phases(merging, moving, listing, ready) && b in moving
    ensures Phases(merging, moving - {b}, listing + {b}, ready) && Phases(merging, moving - {b}, listing, ready + {b})
    ensures Begun(merged, listing + {b}, ready) == Begun(merged, listing, ready) + {b}
    ensures Begun(merged, listing, ready + {b}) == Begun(merged, listing, ready) + {b}
    ensures Awaits(moving - {b}, listing + {b}, ready) < Awaits(moving, listing, ready)
    ensures Awaits(moving - {b}, listing, ready + {b}) < Awaits(moving, listing, ready)
  {
    NextPhases(merging, moving, listing, ready, b);
    NextBegun(merged, listing, ready, b);
    NextAwaits(moving, listing, ready, b);
  }

  lemma InTable(merging: set<nat>, moving: set<nat>, listing: set<nat>, ready: set<nat>, merged: set<nat>, b: nat)
    requires Phases(merging, moving, listing, ready) && b in listing
    ensures Phases(merging, moving, listing - {b}, ready + {b}) && b in Begun(merged, listing, ready)
    ensures Begun(merged, listing - {b}, ready + {b}) == Begun(merged, listing, ready)
    ensures Awaits(moving, listing - {b}, ready + {b}) < Awaits(moving, listing, ready)
  {
    NextPhases(merging, moving, listing, ready, b);
    NextBegun(merged, listing, ready, b);
    NextAwaits(moving, listing, ready, b);
  }

  lemma Begins(j: Job, f: Files, saved: nat)
    requires Left(j, f, saved)
    ensures Progress(j, f, f, f.listed, {}, {})
  {
    assert f.child - {} == f.child;
  }

  /** Part of a block is written: only when copying, which leaves the child as it is. */
  lemma Torn(j: Job, start: Files, f: Files, table: set<nat>, marked: set<nat>, listing: set<nat>, first: nat, b: nat,
             content: Buffer)
    requires Kept(j, f) && FilesBelow(j, f, first) && Progress(j, start, f, table, marked, listing)
    requires !j.renames && b in j.child && first <= b && b !in marked
    ensures var f' := f.(blocks := f.blocks[b := content]);
      Kept(j, f') && FilesBelow(j, f', first) && Progress(j, start, f', table, marked, listing)
  {
  }

  lemma Copied(j: Job, start: Files, f: Files, table: set<nat>, marked: set<nat>, listing: set<nat>, first: nat, b: nat)
    requires Kept(j, f) && FilesBelow(j, f, first) && Progress(j, start, f, table, marked, listing)
    requires !j.renames && b in j.child
    ensures var f' := f.(blocks := f.blocks[b := j.child[b]]);
      Kept(j, f') && FilesBelow(j, f', first) && Progress(j, start, f', table + {b}, marked + {b}, listing)
  {
  }

  lemma Moved(j: Job, start: Files, f: Files, table: set<nat>, marked: set<nat>, listing: set<nat>, first: nat, b: nat)
    requires Kept(j, f) && FilesBelow(j, f, first) && Progress(j, start, f, table, marked, listing)
    requires j.renames && b in f.child && b in j.child && b !in marked
    ensures var f' := Files(f.blocks[b := f.child[b]], f.child - {b}, f.listed);
      && Kept(j, f') && FilesBelow(j, f', first)
      && (b in table ==> Progress(j, start, f', table + {b}, marked + {b}, listing))
      && Progress(j, start, f', table + {b}, marked + {b}, listing + {b})
  {
    assert start.child - marked - {b} == start.child - (marked + {b});
  }

  lemma Found(j: Job, start: Files, f: Files, table: set<nat>, marked: set<nat>, listing: set<nat>, first: nat, b: nat)
    requires Kept(j, f) && FilesBelow(j, f, first) && Progress(j, start, f, table, marked, listing)
    requires j.renames && b !in f.child && b in j.child && b !in marked
    ensures Has(f.blocks, j.child, b) && Progress(j, start, f, table + {b}, marked + {b}, listing)
    ensures f.child - {b} == f.child
  {
    assert start.child - marked == start.child - (marked + {b});
  }

  lemma TableReaches(j: Job, start: Files, f: Files, table: set<nat>, marked: set<nat>, listing: set<nat>, first: nat,
                     b: nat, snapshot: set<nat>)
    requires Kept(j, f) && FilesBelow(j, f, first) && Progress(j, start, f, table, marked, listing)
    requires Left(j, start, first) && b in listing && b in marked
    requires snapshot == table || (b in snapshot && f.listed <= snapshot <= table)
    ensures var f' := f.(listed := snapshot);
      Kept(j, f') && FilesBelow(j, f', first) && Progress(j, start, f', table, marked, listing - {b})
  {
    var f' := f.(listed := snapshot);
    forall c | c in f'.listed ensures c in f'.blocks && (c in j.original || c in j.child) {
      if c in start.listed {
        assert c in f.listed;
      }
    }
  }

  /** When all blocks from `first` on have been merged, only those that were lost before are missing. */
  lemma MergedIs(j: Job, start: Files, f: Files, table: set<nat>, merged: set<nat>, first: nat)
    requires Kept(j, f) && FilesBelow(j, f, first) && Progress(j, start, f, table, merged, {}) && Left(j, start, first)
    requires (forall b | b in merged :: first <= b) && forall b | b in j.child && first <= b :: b in merged
    ensures Visible(f.blocks, table) == j.Overlay() - Lost(j, start, first)
  {
    var disk, whole := Visible(f.blocks, table), j.Overlay() - Lost(j, start, first);
    forall b ensures (b in disk <==> b in whole) && (b in disk ==> disk[b] == whole[b]) {
      if b in start.listed {
        assert b in f.listed;
      }
    }
  }

  class BlockLoop {
    const job: Job
    const start: Files
    const first: nat
    const isResuming: bool
    const toMerge: seq<nat>
    const each: Scheduler
    const parent: VhdDirectory
    var merging: set<nat>
    /** The blocks being merged, by the await they are at: their file, the write of the table, the file's size. */
    var moving: set<nat>
    var listing: set<nat>
    var ready: set<nat>
    var currentBlock: nat
    var counter: nat
    /** `currentBlock` in the state file. */
    var saved: nat
    /** States that are being written: each may reach the file at any time, in any order, or never. */
    var writing: set<nat>
    /** Blocks whose merge has finished. */
    ghost var merged: set<nat>

    /** What holds whatever the merges of the blocks are at. */
    ghost predicate Driven()
      reads this`merging, this`currentBlock, this`counter, this`saved, this`writing, this`merged, each
    {
      && each.Valid() && each.count == |toMerge| && each.stopOnError && !each.aborted
      && Ascending(toMerge) && Selected(toMerge, job.child, first, job.maxTableEntries) && job.Valid()
      && Tracked(toMerge, each.index, merging, merged)
      && (forall i | i in each.pending :: i < |toMerge|)
      && (each.failures == [] ==> Watched(toMerge, each.index, merging, each.pending))
      && NoneSkipped(toMerge, currentBlock, merged)
      && first <= saved <= currentBlock && (forall v | v in writing :: first <= v <= currentBlock)
      && counter == |merged|
      && Left(job, start, first) && (isResuming || start.child.Keys == job.child.Keys)
    }

    ghost predicate Valid()
      reads this, each, parent
    {
      && Driven() && Phases(merging, moving, listing, ready)
      && Kept(job, parent.files) && FilesBelow(job, parent.files, first)
      && Progress(job, start, parent.files, parent.table, Begun(merged, listing, ready), listing)
    }

    constructor (job: Job, files: Files, saved: nat, isResuming: bool, concurrency: nat)
      requires job.Valid() && Left(job, files, saved) && (isResuming || files.child.Keys == job.child.Keys)
      ensures Valid() && fresh(each) && fresh(parent) && this.job == job && start == files && first == saved
      ensures this.isResuming == isResuming && each.concurrency == concurrency && each.failures == []
      ensures each.pending == {} && each.awaiting && each.index == 0 && each.atEnd == None
      ensures currentBlock == this.saved == first == saved && merging == merged == writing == {}
      ensures moving == listing == ready == {} && parent.files == files && parent.table == files.listed
    {
      var selected := SelectBlocks(job.child, saved, job.maxTableEntries);
      var scheduler := new Scheduler(|selected|, concurrency, true);
      var directory := new VhdDirectory(files);
      this.job, start, this.isResuming, parent := job, files, isResuming, directory;
      first, this.saved, currentBlock, counter := saved, saved, saved, 0;
      merging, moving, listing, ready, merged, writing := {}, {}, {}, {}, {}, {};
      toMerge, each := selected, scheduler;
      new;
      Begins(job, files, saved);
      assert Begun(merged, listing, ready) == {};
    }

    /**
     * Whatever the state, a process that stops here leaves files that every state that may reach the state
     * file goes with. When files are moved, only blocks that were lost or unlisted before can be lost.
     */
    lemma StoppedIsLeft(v: nat)
      requires Valid() && (v == currentBlock || v == saved || v in writing)
      ensures Left(job, parent.files, v)
      ensures !job.renames ==> parent.files.listed == start.listed
      ensures job.renames ==> Lost(job, parent.files, v) <= Lost(job, start, first) + Unlisted(job, start)
      ensures job.renames ==> Unlisted(job, parent.files) <= Unlisted(job, start) + listing
    {
      forall b | b in job.child && b < v
        ensures Has(parent.files.blocks, job.child, b) && (b >= first ==> b in merged)
      {
        if b >= first {
          assert b in toMerge;
        }
      }
    }

    /** The scheduler starts the next block, if there is one. */
    method Advance()
      requires Valid() && each.awaiting
      modifies each, this`merging, this`moving
      ensures Valid() && Work() < old(Work()) && merged == old(merged) && each.failures == old(each.failures)
      ensures match old(each.cursor)
        case Some(i) =>
          && i < |toMerge| && merging == old(merging) + {toMerge[i]} && moving == old(moving) + {toMerge[i]}
          && each.pending == old(each.pending) + {i}
        case None => merging == old(merging) && moving == old(moving) && each.pending == old(each.pending)
      ensures old(each.outcome) != Pending ==> each.outcome == old(each.outcome)
      ensures old(each.cursor).Some? ==> each.atEnd == old(each.atEnd) && each.index == old(each.index) + 1
    {
      hide Tracked, NoneSkipped, Ascending, Selected, Watched, Left, Kept, FilesBelow, Progress, Phases, Awaits;
      hide Scheduler.Valid, Scheduler.Counted, Scheduler.Work, Begun, Job.Valid;
      each.NextItem();
      var next := each.cursor;
      ghost var pending := each.pending;
      each.Resume(Promise);
      if next.Some? {
        Started(toMerge, next.value, merging, moving, listing, ready, merged, pending);
        merging := merging + {toMerge[next.value]};
        moving := moving + {toMerge[next.value]};
      }
    }

    /** A block being copied is partly written. */
    method WritePartly(b: nat, content: Buffer)
      requires Valid() && b in moving && !job.renames
      modifies parent
      ensures Valid()
    {
      hide Tracked, NoneSkipped, Ascending, Watched, Left, Kept, FilesBelow, Progress, BlockLoop.Driven;
      IsDriven();
      TornFacts(b);
      Torn(job, start, parent.files, parent.table, Begun(merged, listing, ready), listing, first, b, content);
      parent.WritePartly(b, content);
    }

    /** The block's file is put in place, by a copy or a move; or it is found there. */
    method MergeBlock(b: nat) returns (ok: bool)
      requires Valid() && b in moving
      modifies parent, this`moving, this`listing, this`ready
      ensures Valid() && ok && Work() < old(Work()) && moving == old(moving) - {b}
      ensures if job.renames && b in old(parent.files.child) && b !in old(parent.table)
        then listing == old(listing) + {b} && ready == old(ready)
        else listing == old(listing) && ready == old(ready) + {b}
      ensures parent.files.listed == old(parent.files.listed) && parent.table == old(parent.table) + {b}
      ensures parent.files.child == if job.renames then old(parent.files.child) - {b} else old(parent.files.child)
    {
      hide Tracked, NoneSkipped, Ascending, Selected, Watched, Left, Kept, FilesBelow, Progress, Phases, Awaits,
        Begun, Scheduler.Valid, Scheduler.Counted, Scheduler.Work, Job.Valid, BlockLoop.Driven;
      IsDriven();
      InPlace(merging, moving, listing, ready, merged, b);
      ghost var f, table, marked := parent.files, parent.table, Begun(merged, listing, ready);
      FileFacts(b);
      ok := true;
      var inPlace := true;
      if !job.renames {
        Copied(job, start, f, table, marked, listing, first, b);
        parent.WriteEntireBlock(b, job.child[b]);
      } else if b in parent.files.child {
        Moved(job, start, f, table, marked, listing, first, b);
        inPlace := parent.MoveBlock(b);
      } else {
        Found(job, start, f, table, marked, listing, first, b);
        ok := parent.FindBlock(b, isResuming, job.size);
      }
      moving := moving - {b};
      if inPlace {
        ready := ready + {b};
      } else {
        listing := listing + {b};
      }
    }

    /** The table reaches the disk, with the bit of block `b`. */
    method TableWritten(b: nat)
      requires Valid() && b in listing
      modifies parent, this`listing, this`ready
      ensures Valid() && Work() < old(Work())
    {
      hide Tracked, NoneSkipped, Ascending, Selected, Watched, Left, Kept, FilesBelow, Progress, Phases, Awaits,
        Begun, Scheduler.Valid, Scheduler.Counted, Scheduler.Work, Job.Valid, BlockLoop.Driven;
      IsDriven();
      InTable(merging, moving, listing, ready, merged, b);
      ghost var f, table, marked := parent.files, parent.table, Begun(merged, listing, ready);
      var snapshot := parent.table;
      var late: set<nat> := *;
      if b in late && parent.files.listed <= late <= parent.table {
        snapshot := late;
      }
      TableReaches(job, start, f, table, marked, listing, first, b, snapshot);
      parent.WriteBlockAllocationTable(snapshot);
      listing := listing - {b};
      ready := ready + {b};
    }

    lemma IsDriven()
      requires Driven()
      ensures each.Valid() && Left(job, start, first)
    {
    }

    lemma TornFacts(b: nat)
      requires Valid() && b in moving
      ensures b in job.child && b !in Begun(merged, listing, ready) && first <= b
    {
      InMerging(b);
    }

    lemma FileFacts(b: nat)
      requires Valid() && b in moving
      ensures b in job.child && |job.child[b]| == job.size && b !in Begun(merged, listing, ready) && first <= b
      ensures b in parent.files.child ==> job.renames ==> parent.files.child[b] == job.child[b]
      ensures b !in parent.files.child ==> job.renames && isResuming
    {
      InMerging(b);
    }

    lemma InMerging(b: nat)
      requires Valid() && b in merging
      ensures b in toMerge && b in job.child && first <= b && b !in merged
    {
      assert b in toMerge[..each.index];
    }

    ghost function Work(): nat
      reads this, each
      requires each.Valid()
    {
      4 * each.Work() + Awaits(moving, listing, ready)
    }

    /** The merge of block `toMerge[i]` finishes and its iteratee goes on to the end. */
    method BlockMerged(i: nat)
      requires Valid() && i in each.pending && toMerge[i] in ready
      modifies this`merging, this`ready, this`currentBlock, this`counter, this`merged
      ensures Valid() && Work() < old(Work()) && old(currentBlock) <= currentBlock
      ensures currentBlock == Least(old(merging))
      ensures merged == old(merged) + {toMerge[i]} && merging == old(merging) - {toMerge[i]}
      ensures ready == old(ready) - {toMerge[i]} && counter == old(counter) + 1
    {
      hide Tracked, NoneSkipped, Ascending, Selected, Watched, Left, Kept, FilesBelow, Progress, Phases, Awaits, Begun,
        Scheduler.Valid, Scheduler.Counted, Scheduler.Work, Least, Job.Valid;
      var b := toMerge[i];
      Finished(merging, moving, listing, ready, merged, b);
      FinishNext(toMerge, each.index, merging, merged, each.pending, currentBlock, i);
      currentBlock := Least(merging);
      merging := merging - {b};
      ready := ready - {b};
      merged := merged + {b};
      counter := counter + 1;
    }

    /** The promise of a finished iteratee reaches the scheduler. */
    method Returned(i: nat)
      requires Valid() && i in each.pending && toMerge[i] !in merging
      modifies each
      ensures Valid() && Work() < old(Work()) && each.failures == old(each.failures)
      ensures each.pending == old(each.pending) - {i}
    {
      each.Fulfil(i);
    }

    /** The merge of a block fails; the others go on, but the loop has failed. */
    method BlockFailed(i: nat, error: Error)
      requires Valid() && i in each.pending && toMerge[i] in merging
      modifies each
      ensures Valid() && Work() < old(Work()) && each.failures == old(each.failures) + [error]
    {
      each.Reject(i, error);
    }

    /** The state as it is now starts to be written. */
    method WriteState()
      requires Valid()
      modifies this`writing
      ensures Valid() && writing == old(writing) + {currentBlock}
    {
      hide Tracked, NoneSkipped, Ascending, Selected, Watched, Left, Kept, FilesBelow, Progress, Phases, Begun,
        Scheduler.Valid, Scheduler.Counted;
      writing := writing + {currentBlock};
    }

    /** A state reaches the file, perhaps after a later one. */
    method StateWritten(v: nat)
      requires Valid() && v in writing
      modifies this`writing, this`saved
      ensures Valid() && saved == v && writing == old(writing) - {v}
    {
      hide Tracked, NoneSkipped, Ascending, Selected, Watched, Left, Kept, FilesBelow, Progress, Phases, Begun,
        Scheduler.Valid, Scheduler.Counted;
      saved, writing := v, writing - {v};
    }

    /** When the scheduler resolves, the directory in memory has every block but those that were lost before. */
    lemma ResolvedIsMerged()
      requires Valid() && each.outcome == Resolved
      ensures Visible(parent.files.blocks, parent.table) == job.Overlay() - Lost(job, start, first)
    {
      hide Kept, FilesBelow, Progress, Left, Phases, Visible, Lost, Begun;
      AllMerged(toMerge, merging, merged);
      assert forall b | b in job.child && b >= first :: b in toMerge;
      NothingBegun();
      MergedIs(job, start, parent.files, parent.table, merged, first);
    }

    lemma NothingBegun()
      requires Valid() && merging == {}
      ensures listing == {} && Begun(merged, listing, ready) == merged
      ensures forall b | b in merged :: first <= b
    {
      forall b | b in merged ensures first <= b {
        assert b in toMerge[..each.index];
      }
    }

    lemma EachIsValid()
      requires Valid()
      ensures each.Valid()
    {
    }

    lemma PendingBlock(i: nat)
      requires Valid() && i in each.pending
      ensures i < |toMerge|
      ensures var b := toMerge[i]; b in merging <==> b in moving || b in listing || b in ready
    {
    }

    /** One event, whichever comes first. The blocks in `failing` may fail. */
    method Step(failing: set<nat>)
      requires Valid() && (each.awaiting || each.pending != {})
      modifies this, each, parent
      ensures Valid() && old(currentBlock) <= currentBlock && (failing == {} ==> each.failures == old(each.failures))
      ensures Work() < old(Work()) && saved == old(saved) && writing == old(writing)
    {
      hide *;
      EachIsValid();
      var waits, fails: bool := *, *;
      if each.awaiting && (each.pending == {} || waits) {
        Advance();
        return;
      }
      var i :| i in each.pending;
      PendingBlock(i);
      var b := toMerge[i];
      if b !in merging {
        Returned(i);
      } else if fails && b in failing {
        BlockFailed(i, Failed(0));
      } else if b in moving {
        var ok := MergeBlock(b);
      } else if b in listing {
        TableWritten(b);
      } else {
        BlockMerged(i);
      }
    }

    /**
     * Any run of the loop, in any order of events, until it settles or the process stops, which it does after
     * `stopAfter` events if not before. Blocks may be torn at any time, those in `failing` may fail, and states
     * may be written at any time.
     */
    method Run(stopAfter: Option<nat>, failing: set<nat>) returns (stopped: bool)
      requires Valid()
      modifies this, each, parent
      ensures Valid() && old(currentBlock) <= currentBlock && (stopAfter == None ==> !stopped)
      ensures !stopped ==> each.outcome == (if each.failures == [] then Resolved else Rejected(each.failures[0]))
      ensures failing == {} ==> each.failures == old(each.failures)
    {
      hide Tracked, NoneSkipped, Ascending, Selected, Watched, Left, Kept, FilesBelow, Progress, Phases, Awaits, Begun,
        Scheduler.Counted, Scheduler.Work, Least;
      stopped := false;
      var events := 0;
      while !stopped && (each.awaiting || each.pending != {})
        invariant Valid() && old(currentBlock) <= currentBlock && (stopAfter == None ==> !stopped)
        invariant failing == {} ==> each.failures == old(each.failures)
        decreases !stopped, Work()
      {
        WriteSome();
        stopped := stopAfter == Some(events);
        if !stopped {
          Step(failing);
          events := events + 1;
        }
      }
      each.NoDeadlock();
      if !stopped {
        each.Settled();
      }
    }

    /** Any number of partial block writes, and of states that begin to be written or reach the file. */
    method WriteSome()
      requires Valid()
      modifies this`saved, this`writing, parent
      ensures Valid()
    {
      hide Tracked, NoneSkipped, Ascending, Selected, Watched, Left, Kept, FilesBelow, Progress, Phases, Awaits, Begun,
        Scheduler.Valid, Scheduler.Counted, Scheduler.Work, Least;
      var n: nat := *;
      while n > 0
        invariant Valid()
      {
        var save, land: bool := *, *;
        if save {
          WriteState();
        } else if land && writing != {} {
          var v :| v in writing;
          StateWritten(v);
        } else if !job.renames && moving != {} {
          var b :| b in moving;
          var content: Buffer := *;
          WritePartly(b, content);
        }
        n := n - 1;
      }
    }
  }

  // ----- whole merges ------------------------------------------------------------------------------------

  /**
   * One attempt at the merge: how many events it lives for, if it is stopped, the blocks that may fail, and
   * whether it stops between the loop and the last write of the table.
   */
  datatype Attempt = Attempt(concurrency: nat, stopAfter: Option<nat>, failing: set<nat>, stopsAtEnd: bool)

  predicate Undisturbed(a: Attempt) { a.stopAfter == None && a.failing == {} && !a.stopsAtEnd }

  /** Nothing has been merged. */
  ghost predicate Fresh(j: Job, f: Files) {
    f.listed == j.original.Keys && f.child == j.child && forall b | b in j.original :: Has(f.blocks, j.original, b)
  }

  lemma FreshIsLeft(j: Job, f: Files, saved: nat)
    requires Fresh(j, f) && forall b | b in j.child :: saved <= b
    ensures Left(j, f, saved) && Lost(j, f, saved) == Unlisted(j, f) == {} && f.child == j.child
  {
  }

  /** A merge is complete if and only if the table in the file lists all blocks that count as merged. */
  lemma CompleteWhen(j: Job, f: Files, saved: nat)
    ensures j.Overlay() - Lost(j, f, saved) == j.Overlay() <==> forall b | b in j.child && b < saved :: b in f.listed
  {
    if b :| b in Lost(j, f, saved) {
      assert b in j.Overlay() && b !in j.Overlay() - Lost(j, f, saved);
    } else {
      assert j.Overlay() - {} == j.Overlay();
    }
  }

  /** When blocks are copied, these are the blocks that the parent has had all along. */
  lemma CopiedAreListed(j: Job, f: Files, saved: nat)
    requires Left(j, f, saved) && !j.renames
    ensures forall b :: b in f.listed <==> b in j.original
  {
  }

  /**
   * One attempt, from whatever was left. If it comes to its end, the merged disk lacks exactly the blocks
   * that counted as merged and that the table did not list: the merge is complete if and only if there are
   * none. If not, what it leaves can be the start of another one; `between` are the blocks that it stopped
   * at between the move of their file and the write of the table.
   */
  method MergeOnce(j: Job, files: Files, saved: nat, isResuming: bool, attempt: Attempt)
    returns (files': Files, saved': nat, done: bool, ghost between: set<nat>)
    requires j.Valid() && Left(j, files, saved) && (isResuming || files.child.Keys == j.child.Keys)
    ensures Undisturbed(attempt) ==> done
    ensures done ==> Visible(files'.blocks, files'.listed) == j.Overlay() - Lost(j, files, saved)
    ensures done ==> (Visible(files'.blocks, files'.listed) == j.Overlay()
                      <==> forall b | b in j.child && b < saved :: b in files.listed)
    ensures !done ==> Left(j, files', saved')
    ensures !done && j.renames ==> Lost(j, files', saved') <= Lost(j, files, saved) + Unlisted(j, files)
    ensures !done && j.renames ==> Unlisted(j, files') <= Unlisted(j, files) + between
  {
    hide Left, Lost, Unlisted, Visible;
    CompleteWhen(j, files, saved);
    var loop := new BlockLoop(j, files, saved, isResuming, attempt.concurrency);
    var stopped := loop.Run(attempt.stopAfter, attempt.failing);
    done, between := loop.each.outcome == Resolved && !attempt.stopsAtEnd, loop.listing;
    if done {
      loop.ResolvedIsMerged();
      loop.parent.WriteBlockAllocationTable(loop.parent.table);
      return loop.parent.files, loop.saved, true, between;
    }
    var late: bool := *;
    saved' := loop.saved;
    if late && loop.writing != {} {
      saved' :| saved' in loop.writing;
    } else if late {
      saved' := loop.currentBlock;
    }
    loop.StoppedIsLeft(saved');
    files' := loop.parent.files;
  }

  /** The first block of the child, from which the merge starts. */
  method FirstBlock(j: Job) returns (first: nat)
    requires j.Valid()
    ensures forall b | b in j.child :: first <= b
  {
    first := 0;
    while first < j.maxTableEntries && first !in j.child
      invariant forall b | b in j.child :: first <= b
    {
      first := first + 1;
    }
  }

  /**
   * A merge attempted any number of times, each time resumed from the state file, which may be a late one,
   * with its own concurrency. An attempt that nothing disturbs ends it. What is then missing are the blocks
   * below the state `from` of the last attempt that the table it found, `last`, did not list: none if it
   * is the first attempt, or the second and files are moved, or if no attempt stopped between the move of a
   * file and the write of the table. Attempts after the `tried` first are not needed. `trail` is what each
   * attempt found and what the last one left.
   */
  method MergeInParallel(j: Job, files: Files, attempts: seq<Attempt>)
    returns (files': Files, saved: nat, done: bool, last: Files, from: nat, tried: nat,
             trail: seq<(Files, nat)>, ghost between: set<nat>)
    requires j.Valid() && Fresh(j, files)
    ensures |trail| == tried + 1 && trail[0].0 == files && trail[tried] == (files', saved)
    ensures forall b | b in j.child :: trail[0].1 <= b
    ensures tried > 0 ==> trail[tried - 1] == (last, from)
    ensures forall k | 0 <= k < tried :: Left(j, trail[k].0, trail[k].1)
    ensures (exists k :: 0 <= k < |attempts| && Undisturbed(attempts[k])) ==> done
    ensures !done ==> Left(j, files', saved)
    ensures done ==> Visible(files'.blocks, files'.listed) == j.Overlay() - Lost(j, last, from)
    ensures done ==> (Visible(files'.blocks, files'.listed) == j.Overlay()
                      <==> forall b | b in j.child && b < from :: b in last.listed)
    ensures done && !j.renames ==> (Visible(files'.blocks, files'.listed) == j.Overlay()
                                    <==> forall b | b in j.child && b < from :: b in j.original)
    ensures done && j.renames && between == {} ==> Visible(files'.blocks, files'.listed) == j.Overlay()
    ensures done && tried <= (if j.renames then 2 else 1) ==> Visible(files'.blocks, files'.listed) == j.Overlay()
  {
    hide Left, Lost, Unlisted, Visible, Fresh, Has;
    saved := FirstBlock(j);
    FreshIsLeft(j, files, saved);
    files', done, last, from, tried, trail := files, false, files, saved, 0, [(files, saved)];
    between := {};
    while tried < |attempts|
      invariant !done && tried <= |attempts| && Left(j, files', saved)
      invariant forall k | 0 <= k < tried :: !Undisturbed(attempts[k])
      invariant |trail| == tried + 1 && trail[0].0 == files && trail[tried] == (files', saved)
      invariant forall b | b in j.child :: trail[0].1 <= b
      invariant tried > 0 ==> trail[tried - 1] == (last, from)
      invariant forall k | 0 <= k <= tried :: Left(j, trail[k].0, trail[k].1)
      invariant tried == 0 ==> files' == files && Lost(j, files', saved) == Unlisted(j, files') == {}
      invariant tried == 1 && j.renames ==> Lost(j, files', saved) == {}
      invariant j.renames && between == {} ==> Lost(j, files', saved) == Unlisted(j, files') == {}
    {
      last, from := files', saved;
      ghost var stoppedAt;
      files', saved, done, stoppedAt := MergeOnce(j, last, from, tried > 0, attempts[tried]);
      tried, trail := tried + 1, trail + [(files', saved)];
      if done {
        CompleteWhen(j, last, from);
        if !j.renames {
          CopiedAreListed(j, last, from);
        }
        return;
      }
      between := between + stoppedAt;
    }
  }

  // ----- blocks that are lost --------------------------------------------------------------------------

  lemma {:induction false} NoLess(s: seq<nat>, n: nat)
    requires Ascending(s) && n <= |s|
    ensures forall k | 0 <= k < n :: s[k] >= k
  {
    if n > 1 {
      NoLess(s, n - 1);
      assert s[n - 2] < s[n - 1];
    }
  }

  lemma TwoBlocks(s: seq<nat>, child: Disk, end: nat)
    requires Ascending(s) && Selected(s, child, 0, end) && child.Keys == {0, 1} && end >= 2
    ensures s == [0, 1]
  {
    assert 0 in s && 1 in s;
    var i, k :| 0 <= i < |s| && 0 <= k < |s| && s[i] == 0 && s[k] == 1;
    NoLess(s, |s|);
    var last := |s| - 1;
    assert s[last] in s && last <= s[last] <= 1;
  }

  /** The blocks 0 and 1 are merged at once, up to the first await of each. */
  method StartTwo(j: Job, files: Files, isResuming: bool) returns (loop: BlockLoop)
    requires j.Valid() && Left(j, files, 0) && (isResuming || files.child.Keys == j.child.Keys)
    requires j.child.Keys == {0, 1} && j.maxTableEntries >= 2
    ensures fresh(loop) && fresh(loop.each) && fresh(loop.parent) && loop.Valid() && loop.job == j
    ensures loop.start == files && loop.first == 0 && loop.isResuming == isResuming && loop.toMerge == [0, 1]
    ensures loop.parent.files == files && loop.parent.table == files.listed && loop.saved == 0
    ensures loop.merging == loop.moving == {0, 1} && loop.listing == loop.ready == {}
    ensures loop.each.pending == {0, 1} && loop.writing == {}
  {
    hide Tracked, NoneSkipped, Ascending, Selected, Watched, Left, Kept, FilesBelow, Progress, Phases, Awaits, Begun,
      Scheduler.Valid, Scheduler.Counted, Scheduler.Work, Job.Valid;
    loop := new BlockLoop(j, files, 0, isResuming, 2);
    TwoBlocks(loop.toMerge, j.child, j.maxTableEntries);
    loop.each.NextItem();
    loop.Advance();
    loop.each.GoesOn();
    loop.each.NextItem();
    loop.Advance();
  }

  /** What is left of two blocks when the first is lost. */
  lemma OnlySecond(j: Job, f: Files)
    requires j.child.Keys == {0, 1} && j.original.Keys <= {1} && 0 !in f.listed
    ensures j.Overlay() - Lost(j, f, 1) == map[1 := j.child[1]]
  {
    assert forall b :: b in Lost(j, f, 1) <==> b == 0;
  }

  /**
   * Two blocks are copied, the state file says that the merge is at the second one, and the process stops.
   * The resumed merge ends without the first one.
   */
  method CopyLost(zero: Buffer, one: Buffer) returns (disk: Disk)
    requires |zero| == |one|
    ensures disk == map[1 := one]
  {
    var j := Job(map[], map[0 := zero, 1 := one], 2, |zero|, false);
    var files := Files(map[], j.child, {});
    FreshIsLeft(j, files, 0);
    assert j.Valid() && j.child.Keys == {0, 1} && j.original.Keys <= {1} && j.child[1] == one;
    hide *;
    var loop := StartTwo(j, files, false);
    SecondBlock(loop);
    files := loop.parent.files;
    OnlySecond(j, files);
    var saved, done;
    ghost var between;
    files, saved, done, between := MergeOnce(j, files, 1, true, Attempt(2, None, {}, false));
    disk := Visible(files.blocks, files.listed);
  }

  method SecondBlock(loop: BlockLoop)
    requires loop.Valid() && loop.toMerge == [0, 1] && loop.saved == 0 && loop.writing == {}
    requires loop.merging == loop.moving == {0, 1} && loop.listing == loop.ready == {} && loop.each.pending == {0, 1}
    requires loop.job.renames ==> 0 !in loop.parent.files.child && 1 in loop.parent.table
    modifies loop, loop.each, loop.parent
    ensures loop.Valid() && loop.saved == 1 && loop.parent.files.listed == old(loop.parent.files.listed)
    ensures Left(loop.job, loop.parent.files, 1)
  {
    hide Tracked, NoneSkipped, Ascending, Selected, Watched, Left, Kept, FilesBelow, Progress, Phases, Awaits, Begun,
      Scheduler.Valid, Scheduler.Counted, Scheduler.Work, Job.Valid;
    var ok := loop.MergeBlock(0);
    loop.BlockMerged(0);
    ok := loop.MergeBlock(1);
    loop.BlockMerged(1);
    loop.WriteState();
    loop.StateWritten(1);
    loop.StoppedIsLeft(1);
  }

  /**
   * The child's files are moved. The process stops between the move of the first block and the write of the
   * table; resumed, it finds that file, goes on to the second block, which the table has, and stops again.
   * The merge ends without the first block.
   */
  method MoveLost(zero: Buffer, one: Buffer, before: Buffer) returns (disk: Disk)
    requires |zero| == |one|
    ensures disk == map[1 := one]
  {
    var j := Job(map[1 := before], map[0 := zero, 1 := one], 2, |zero|, true);
    var files := Files(map[1 := before], j.child, {1});
    FreshIsLeft(j, files, 0);
    assert j.Valid() && j.child.Keys == {0, 1} && j.original.Keys <= {1} && j.child[1] == one;
    hide *;
    files := StoppedBetween(j, files);
    var loop := StartTwo(j, files, true);
    SecondBlock(loop);
    files := loop.parent.files;
    OnlySecond(j, files);
    var saved, done;
    ghost var between;
    files, saved, done, between := MergeOnce(j, files, 1, true, Attempt(2, None, {}, false));
    disk := Visible(files.blocks, files.listed);
  }

  /** The file of the first block has been moved, and the table has not been written. */
  method StoppedBetween(j: Job, files: Files) returns (files': Files)
    requires j.Valid() && Left(j, files, 0) && files.child.Keys == j.child.Keys == {0, 1} && j.maxTableEntries >= 2
    requires j.renames
    ensures Left(j, files', 0) && files'.listed == files.listed && files'.child.Keys == {1}
  {
    hide *;
    var loop := StartTwo(j, files, false);
    var ok := loop.MergeBlock(0);
    loop.StoppedIsLeft(loop.saved);
    files' := loop.parent.files;
  }
}
