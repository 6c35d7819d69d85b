/** The sparse stream builder: fragments of a disk, in any order, become the stream of a VHD. */
module SparseStream {
  import opened Options
  import opened Bytes
  import opened VhdFormat
  import opened VhdLayout
  import opened Geometry
  import opened Bitmap
  import opened SparseLayout

  /** A piece of the disk, at a byte address. */
  datatype Fragment = Fragment(address: nat, data: Buffer)

  function Addresses(frags: seq<Fragment>): (a: seq<nat>)
    ensures |a| == |frags| && forall i | 0 <= i < |frags| :: a[i] == frags[i].address
  {
    seq(|frags|, i requires 0 <= i < |frags| => frags[i].address)
  }

  /** Fragments have `size` bytes, a multiple of a sector and a divisor of a block, and stand at its multiples. */
  ghost predicate Fragments(frags: seq<Fragment>, size: nat) {
    && size > 0 && size % SECTOR == 0 && BLOCK_SIZE % size == 0
    && forall i | 0 <= i < |frags| :: frags[i].address % size == 0 && |frags[i].data| == size
  }

  /** First sector of a fragment in its block. */
  function Start(address: nat): (s: nat)
    ensures s < BLOCK_SECTORS
  {
    address / SECTOR % BLOCK_SECTORS
  }

  lemma OffsetInBlock(lba: nat, size: nat, ratio: nat) returns (q: nat, t: nat)
    requires size > 0 && ratio > 0 && ratio * size == BLOCK_SIZE
    ensures lba * size == q * BLOCK_SIZE + t * size && t * size + size <= BLOCK_SIZE
  {
    q, t := lba / ratio, lba % ratio;
    assert lba == q * ratio + t;
    assert (q * ratio + t) * size == q * (ratio * size) + t * size;
    assert (t + 1) * size <= ratio * size;
  }

  lemma StartOfOffset(address: nat, q: nat, k: nat)
    requires address == q * BLOCK_SIZE + SECTOR * k && k < BLOCK_SECTORS
    ensures address % BLOCK_SIZE == SECTOR * k && Start(address) == k
  {
  }

  /** A fragment stays inside its block, and starts at a sector. */
  lemma InBlock(address: nat, size: nat)
    requires size > 0 && size % SECTOR == 0 && BLOCK_SIZE % size == 0 && address % size == 0
    ensures address % BLOCK_SIZE == SECTOR * Start(address)
    ensures Start(address) + size / SECTOR <= BLOCK_SECTORS
  {
    var sectors, ratio, lba := size / SECTOR, BLOCK_SIZE / size, address / size;
    assert ratio * size == BLOCK_SIZE && address == lba * size;
    assert ratio > 0;
    var q, t := OffsetInBlock(lba, size, ratio);
    assert t * size == SECTOR * (t * sectors);
    hide Start;
    StartOfOffset(address, q, t * sectors);
  }

  predicate Covers(frag: Fragment, sectors: nat, b: nat, s: nat) {
    BlockOf(frag.address) == b && Start(frag.address) <= s < Start(frag.address) + sectors
  }

  /** What the first `i` fragments say of sector `s` of block `b`: the last one that covers it. */
  function SectorAt(frags: seq<Fragment>, size: nat, b: nat, s: nat, i: nat): (r: Option<Buffer>)
    requires i <= |frags| && Fragments(frags, size)
    ensures r.Some? ==> |r.value| == SECTOR
  {
    if i == 0 then None
    else if Covers(frags[i - 1], size / SECTOR, b, s) then
      var at := SECTOR * (s - Start(frags[i - 1].address));
      Some(frags[i - 1].data[at..at + SECTOR])
    else SectorAt(frags, size, b, s, i - 1)
  }

  /** The fragment has the bytes of sector `d` of the disk. */
  predicate HasSector(frag: Fragment, size: nat, d: nat) {
    frag.address <= 512 * d && 512 * d + 512 <= frag.address + size
  }

  lemma CoversIs(frag: Fragment, size: nat, d: nat)
    requires size > 0 && size % SECTOR == 0 && BLOCK_SIZE % size == 0 && frag.address % size == 0
    ensures Covers(frag, size / SECTOR, d / 4096, d % 4096) <==> HasSector(frag, size, d)
    ensures HasSector(frag, size, d) ==> SECTOR * (d % 4096 - Start(frag.address)) == 512 * d - frag.address
  {
    var a, n := frag.address, size / SECTOR;
    InBlock(a, size);
    var block, start := BlockOf(a), Start(a);
    assert a == 0x20_0000 * block + 512 * start && size == 512 * n && start + n <= 4096;
    hide BlockOf, Start;
    assert d == 4096 * (d / 4096) + d % 4096;
  }

  lemma SectorAtNext(frags: seq<Fragment>, size: nat, d: nat, i: nat)
    requires 0 < i <= |frags| && Fragments(frags, size)
    ensures var frag, at := frags[i - 1], 512 * d - frags[i - 1].address;
      SectorAt(frags, size, d / 4096, d % 4096, i)
      == if HasSector(frag, size, d) then Some(frag.data[at..at + 512])
         else SectorAt(frags, size, d / 4096, d % 4096, i - 1)
  {
    CoversIs(frags[i - 1], size, d);
  }

  /** Sector `d` of the disk is what the last of the first `i` fragments that has it says. */
  lemma {:induction false} SectorAtIs(frags: seq<Fragment>, size: nat, d: nat, k: nat, i: nat)
    requires k < i <= |frags| && Fragments(frags, size) && HasSector(frags[k], size, d)
    requires forall l | k < l < i :: !HasSector(frags[l], size, d)
    ensures var at := 512 * d - frags[k].address;
      SectorAt(frags, size, d / 4096, d % 4096, i) == Some(frags[k].data[at..at + 512])
  {
    SectorAtNext(frags, size, d, i);
    if k < i - 1 {
      hide *;
      SectorAtIs(frags, size, d, k, i - 1);
    }
  }

  /** Without such a fragment it is absent. */
  lemma {:induction false} SectorIsAbsent(frags: seq<Fragment>, size: nat, d: nat, i: nat)
    requires i <= |frags| && Fragments(frags, size) && forall l | 0 <= l < i :: !HasSector(frags[l], size, d)
    ensures SectorAt(frags, size, d / 4096, d % 4096, i) == None
  {
    if i > 0 {
      SectorAtNext(frags, size, d, i);
      SectorIsAbsent(frags, size, d, i - 1);
    }
  }

  function DataOf(r: Option<Buffer>): Buffer { if r.Some? then r.value else Zeros(SECTOR) }

  /** The bitmap marks exactly the sectors that have data; the others are zero. */
  ghost predicate HoldsFragments(block: Buffer, frags: seq<Fragment>, size: nat, b: nat, i: nat)
    requires i <= |frags| && Fragments(frags, size)
  {
    && |block| == FULL_BLOCK
    && forall s: nat | s < BLOCK_SECTORS ::
         Test(block, s) == SectorAt(frags, size, b, s, i).Some?
           && SectorIn(block, s) == DataOf(SectorAt(frags, size, b, s, i))
  }

  function SectorIn(block: Buffer, s: nat): Buffer
    requires |block| == FULL_BLOCK && s < BLOCK_SECTORS
  {
    block[BITMAP_SIZE + SECTOR * s..BITMAP_SIZE + SECTOR * s + SECTOR]
  }

  // ----- one fragment ---------------------------------------------------------------------------------------

  method InsertFragment(frag: Fragment, block: Buffer, size: nat) returns (r: Buffer)
    requires size > 0 && size % SECTOR == 0 && BLOCK_SIZE % size == 0
    requires |block| == FULL_BLOCK && |frag.data| == size && frag.address % size == 0
    ensures |r| == FULL_BLOCK
    ensures forall s: nat | s < BLOCK_SECTORS ::
      Test(r, s) == (Start(frag.address) <= s < Start(frag.address) + size / SECTOR || Test(block, s))
    ensures forall s: nat | s < BLOCK_SECTORS ::
              SectorIn(r, s) == if Start(frag.address) <= s < Start(frag.address) + size / SECTOR
                                then var at := SECTOR * (s - Start(frag.address)); frag.data[at..at + SECTOR]
                                else SectorIn(block, s)
  {
    InBlock(frag.address, size);
    var start := Start(frag.address);
    var bitmap := SetRange(block[..BITMAP_SIZE], start, start + size / SECTOR);
    var data := Patch(block[BITMAP_SIZE..], frag.address % BLOCK_SIZE, frag.data);
    r := bitmap + data;
    forall s: nat | s < BLOCK_SECTORS
      ensures Test(r, s) == (start <= s < start + size / SECTOR || Test(block, s))
    {
      assert r[s / 8] == bitmap[s / 8] && block[..BITMAP_SIZE][s / 8] == block[s / 8];
      assert Test(bitmap, s) == (start <= s < start + size / SECTOR || Test(block[..BITMAP_SIZE], s));
    }
    forall s: nat | s < BLOCK_SECTORS
      ensures SectorIn(r, s) == if start <= s < start + size / SECTOR
                                then var at := SECTOR * (s - start); frag.data[at..at + SECTOR]
                                else SectorIn(block, s)
    {
      CopiedSector(block, r, data, frag, size, s);
    }
  }

  lemma CopiedSector(block: Buffer, r: Buffer, data: Buffer, frag: Fragment, size: nat, s: nat)
    requires |block| == |r| == FULL_BLOCK && r[BITMAP_SIZE..] == data && s < BLOCK_SECTORS && |frag.data| == size
    requires size % SECTOR == 0
    requires Patched(block[BITMAP_SIZE..], data, SECTOR * Start(frag.address), frag.data)
    ensures var start := Start(frag.address);
      SectorIn(r, s) == if start <= s < start + size / SECTOR
                        then var at := SECTOR * (s - start); frag.data[at..at + SECTOR]
                        else SectorIn(block, s)
  {
    var start, p := Start(frag.address), SECTOR * s;
    assert r[BITMAP_SIZE..|r|] == data && block[BITMAP_SIZE..|block|] == block[BITMAP_SIZE..];
    SubSlice(r, BITMAP_SIZE, |r|, p, SECTOR);
    SubSlice(block, BITMAP_SIZE, |block|, p, SECTOR);
    if start <= s < start + size / SECTOR {
      var at := SECTOR * (s - start);
      assert data[p..p + SECTOR] == frag.data[at..at + SECTOR];
    } else {
      assert data[p..p + SECTOR] == block[BITMAP_SIZE..][p..p + SECTOR];
    }
  }

  lemma Inserted(frags: seq<Fragment>, size: nat, block: Buffer, r: Buffer, i: nat)
    requires Fragments(frags, size) && i < |frags|
    requires |r| == FULL_BLOCK && HoldsFragments(block, frags, size, BlockOf(frags[i].address), i)
    requires forall s: nat | s < BLOCK_SECTORS ::
      Test(r, s) == (Start(frags[i].address) <= s < Start(frags[i].address) + size / SECTOR || Test(block, s))
    requires forall s: nat | s < BLOCK_SECTORS ::
      SectorIn(r, s) == if Start(frags[i].address) <= s < Start(frags[i].address) + size / SECTOR
                        then var at := SECTOR * (s - Start(frags[i].address)); frags[i].data[at..at + SECTOR]
                        else SectorIn(block, s)
    ensures HoldsFragments(r, frags, size, BlockOf(frags[i].address), i + 1)
  {
    hide Test, SectorIn, Start, BlockOf;
  }

  /** Fragments of other blocks change nothing. */
  lemma HoldsStill(frags: seq<Fragment>, size: nat, block: Buffer, b: nat, i: nat)
    requires Fragments(frags, size) && i < |frags| && BlockOf(frags[i].address) != b
    requires HoldsFragments(block, frags, size, b, i)
    ensures HoldsFragments(block, frags, size, b, i + 1)
  {
    hide Test, SectorIn, Start, BlockOf;
  }

  lemma {:induction false} NothingYet(frags: seq<Fragment>, size: nat, b: nat, s: nat, i: nat)
    requires Fragments(frags, size) && i <= |frags| && forall k | 0 <= k < i :: BlockOf(frags[k].address) != b
    ensures SectorAt(frags, size, b, s, i) == None
  {
    if i > 0 {
      NothingYet(frags, size, b, s, i - 1);
    }
  }

  lemma EmptyHolds(frags: seq<Fragment>, size: nat, b: nat, i: nat)
    requires Fragments(frags, size) && i <= |frags| && forall k | 0 <= k < i :: BlockOf(frags[k].address) != b
    ensures HoldsFragments(Zeros(FULL_BLOCK), frags, size, b, i)
  {
    var block := Zeros(FULL_BLOCK);
    forall s: nat | s < BLOCK_SECTORS
      ensures Test(block, s) == SectorAt(frags, size, b, s, i).Some?
      ensures SectorIn(block, s) == DataOf(SectorAt(frags, size, b, s, i))
    {
      NothingYet(frags, size, b, s, i);
      NoBits(s % 8);
    }
  }

  // ----- sending blocks ---------------------------------------------------------------------------------------

  /** No fragment has the address of a later one that is the last of its block. */
  ghost predicate OneEach(a: seq<nat>) { forall i, j | 0 <= i < j < |a| && IsLast(a, j) :: a[i] != a[j] }

  /** Every block's sector reads as used. */
  predicate Named(a: seq<nat>, first: nat) {
    Done(a, |a|) == 0 || PlaceOf(a, first, |a|) - FULL_SECTORS < BLOCK_UNUSED
  }

  /** The fragment has the address that completes its block. */
  predicate Completes(last: map<nat, nat>, address: nat) {
    BlockOf(address) in last && last[BlockOf(address)] == address
  }

  /** Whatever the fragments, a block that has been sent stands before the position, so it is not sent twice. */
  ghost predicate Behind(a: seq<nat>, bat: Table, last: map<nat, nat>, position: nat, i: nat)
    requires i <= |a|
  {
    && (forall k | 0 <= k < i :: BlockOf(a[k]) < |bat| && bat[BlockOf(a[k])] != BLOCK_UNUSED)
    && (forall k | 0 <= k < i && Completes(last, a[k]) :: SECTOR * bat[BlockOf(a[k])] < position)
    && (forall k, l | 0 <= k < l < i && Completes(last, a[k]) && Completes(last, a[l]) ::
          BlockOf(a[k]) != BlockOf(a[l]))
  }

  ghost predicate Started(a: seq<nat>, i: nat, b: nat) { exists k :: 0 <= k < i && k < |a| && BlockOf(a[k]) == b }

  /** Blocks that wait for more fragments hold those that came. */
  ghost predicate Waiting(frags: seq<Fragment>, size: nat, pending: map<nat, Buffer>, i: nat)
    requires i <= |frags| && Fragments(frags, size)
  {
    && (forall b: nat :: b in pending <==> Started(Addresses(frags), i, b) && Occurs(Addresses(frags), i, b))
    && (forall b | b in pending :: HoldsFragments(pending[b], frags, size, b, i))
  }

  /** Complete blocks are out, in order. */
  ghost predicate Sent(frags: seq<Fragment>, size: nat, out: Buffer, i: nat)
    requires i <= |frags| && Fragments(frags, size)
  {
    var a := Addresses(frags);
    && |out| == FULL_BLOCK * Done(a, i)
    && forall j: nat | j < i && IsLast(a, j) :: SentBlock(frags, size, out, Done(a, j), BlockOf(a[j]), i)
  }

  ghost predicate SentBlock(frags: seq<Fragment>, size: nat, out: Buffer, rank: nat, b: nat, i: nat)
    requires i <= |frags| && Fragments(frags, size)
  {
    && FULL_BLOCK * rank + FULL_BLOCK <= |out|
    && HoldsFragments(out[FULL_BLOCK * rank..FULL_BLOCK * rank + FULL_BLOCK], frags, size, b, i)
  }

  lemma CompletesLast(a: seq<nat>, last: map<nat, nat>, i: nat)
    requires i < |a| && LastAddresses(last, a, 0)
    ensures IsLast(a, i) ==> Completes(last, a[i])
    ensures OneEach(a) && Completes(last, a[i]) ==> IsLast(a, i)
  {
    var j := HasLast(a, i);
    assert Occurs(a, 0, BlockOf(a[j]));
  }

  /** If no block is completed twice, no address is repeated where it matters. */
  lemma NotTwice(a: seq<nat>, bat: Table, last: map<nat, nat>, position: nat)
    requires LastAddresses(last, a, 0) && Behind(a, bat, last, position, |a|)
    ensures OneEach(a)
  {
    forall i, j | 0 <= i < j < |a| && IsLast(a, j) ensures a[i] != a[j] {
      CompletesLast(a, last, j);
    }
  }

  lemma BehindNext(a: seq<nat>, bat: Table, last: map<nat, nat>, position: nat, i: nat)
    requires i < |a| && Behind(a, bat, last, position, i) && BlockOf(a[i]) < |bat| && bat[BlockOf(a[i])] != BLOCK_UNUSED
    requires !Completes(last, a[i])
    ensures Behind(a, bat, last, position, i + 1)
  {
    hide BlockOf;
  }

  lemma BehindSent(a: seq<nat>, bat: Table, last: map<nat, nat>, b: nat, position: nat, i: nat)
    requires i < |a| && Behind(a, bat, last, position, i) && b == BlockOf(a[i]) < |bat| && bat[b] != BLOCK_UNUSED
    requires Completes(last, a[i]) && position == SECTOR * bat[b]
    ensures Behind(a, bat, last, position + FULL_BLOCK, i + 1)
  {
    hide BlockOf;
  }

  lemma StartedNext(a: seq<nat>, i: nat, b: nat)
    requires i < |a|
    ensures Started(a, i + 1, b) <==> Started(a, i, b) || BlockOf(a[i]) == b
  {
    if Started(a, i, b) {
      var k :| 0 <= k < i && BlockOf(a[k]) == b;
      assert k < i + 1;
    }
  }

  /** The buffer of the fragment's block before it is inserted. */
  lemma WaitingBlock(frags: seq<Fragment>, size: nat, pending: map<nat, Buffer>, i: nat)
    requires Fragments(frags, size) && i < |frags| && Waiting(frags, size, pending, i)
    ensures var b := BlockOf(frags[i].address);
      HoldsFragments(if b in pending then pending[b] else Zeros(FULL_BLOCK), frags, size, b, i)
  {
    var a, b := Addresses(frags), BlockOf(frags[i].address);
    OccursNext(a, i, b);
    if b !in pending {
      forall k | 0 <= k < i ensures BlockOf(frags[k].address) != b {
        assert BlockOf(a[k]) == b ==> Started(a, i, b);
      }
      EmptyHolds(frags, size, b, i);
    }
  }

  lemma WaitingNext(frags: seq<Fragment>, size: nat, pending: map<nat, Buffer>, block: Buffer, i: nat)
    requires Fragments(frags, size) && i < |frags| && Waiting(frags, size, pending, i)
    requires HoldsFragments(block, frags, size, BlockOf(frags[i].address), i + 1)
    ensures var a, b := Addresses(frags), BlockOf(frags[i].address);
      Waiting(frags, size, if IsLast(a, i) then pending - {b} else pending[b := block], i + 1)
  {
    var a, b := Addresses(frags), BlockOf(frags[i].address);
    var pending' := if IsLast(a, i) then pending - {b} else pending[b := block];
    hide HoldsFragments, BlockOf;
    forall c: nat ensures c in pending' <==> Started(a, i + 1, c) && Occurs(a, i + 1, c) {
      StartedNext(a, i, c);
      OccursNext(a, i, c);
    }
    forall c | c in pending' ensures HoldsFragments(pending'[c], frags, size, c, i + 1) {
      if c != b {
        HoldsStill(frags, size, pending[c], c, i);
      }
    }
  }

  lemma SentStays(frags: seq<Fragment>, size: nat, out: Buffer, block: Buffer, rank: nat, b: nat, i: nat)
    requires Fragments(frags, size) && i < |frags| && SentBlock(frags, size, out, rank, b, i)
    requires BlockOf(frags[i].address) != b
    ensures SentBlock(frags, size, out, rank, b, i + 1) && SentBlock(frags, size, out + block, rank, b, i + 1)
  {
    var at := FULL_BLOCK * rank;
    assert (out + block)[at..at + FULL_BLOCK] == out[at..at + FULL_BLOCK];
    HoldsStill(frags, size, out[at..at + FULL_BLOCK], b, i);
  }

  lemma SentLast(frags: seq<Fragment>, size: nat, out: Buffer, block: Buffer, rank: nat, b: nat, i: nat)
    requires Fragments(frags, size) && i <= |frags| && |out| == FULL_BLOCK * rank
    requires |block| == FULL_BLOCK && HoldsFragments(block, frags, size, b, i)
    ensures SentBlock(frags, size, out + block, rank, b, i)
  {
    assert (out + block)[|out|..|out| + FULL_BLOCK] == block;
  }

  lemma SentNext(frags: seq<Fragment>, size: nat, out: Buffer, block: Buffer, i: nat)
    requires Fragments(frags, size) && i < |frags| && Sent(frags, size, out, i)
    requires |block| == FULL_BLOCK && HoldsFragments(block, frags, size, BlockOf(frags[i].address), i + 1)
    ensures Sent(frags, size, if IsLast(Addresses(frags), i) then out + block else out, i + 1)
  {
    var a := Addresses(frags);
    var out' := if IsLast(a, i) then out + block else out;
    forall j: nat | j < i + 1 && IsLast(a, j)
      ensures SentBlock(frags, size, out', Done(a, j), BlockOf(a[j]), i + 1)
    {
      hide HoldsFragments, BlockOf, SentBlock;
      if j < i {
        SentStays(frags, size, out, block, Done(a, j), BlockOf(a[j]), i);
      } else {
        SentLast(frags, size, out, block, Done(a, i), BlockOf(a[i]), i + 1);
      }
    }
  }

  // ----- the whole run --------------------------------------------------------------------------------------

  /** The run is on track: everything is where the table says. */
  ghost predicate OnTrack(frags: seq<Fragment>, size: nat, first: nat, pending: map<nat, Buffer>, out: Buffer,
                          position: nat, i: nat)
    requires i <= |frags| && Fragments(frags, size)
  {
    && Waiting(frags, size, pending, i) && Sent(frags, size, out, i)
    && position == SECTOR * PlaceOf(Addresses(frags), first, i)
  }

  lemma StartOnTrack(frags: seq<Fragment>, size: nat, first: nat)
    requires Fragments(frags, size)
    ensures OnTrack(frags, size, first, map[], [], SECTOR * first, 0)
  {
    forall b: nat ensures !Started(Addresses(frags), 0, b) {
    }
  }

  lemma StepOnTrack(frags: seq<Fragment>, size: nat, first: nat, pending: map<nat, Buffer>, out: Buffer, position: nat,
                    block: Buffer, last: map<nat, nat>, bat: Table, i: nat)
    requires Fragments(frags, size) && i < |frags| && OnTrack(frags, size, first, pending, out, position, i)
    requires OneEach(Addresses(frags)) && LastAddresses(last, Addresses(frags), 0)
    requires Places(bat, Addresses(frags), first)
    requires |block| == FULL_BLOCK && HoldsFragments(block, frags, size, BlockOf(frags[i].address), i + 1)
    ensures var b := BlockOf(frags[i].address);
      if Completes(last, frags[i].address)
      then b < |bat| && position == SECTOR * bat[b]
           && OnTrack(frags, size, first, pending[b := block] - {b}, out + block, position + FULL_BLOCK, i + 1)
      else OnTrack(frags, size, first, pending[b := block], out, position, i + 1)
  {
    hide Waiting, Sent, HoldsFragments, LastAddresses, OneEach, Completes, BlockOf;
    var a := Addresses(frags);
    CompletesLast(a, last, i);
    assert BlockOf(a[i]) == BlockOf(frags[i].address);
    assert pending[BlockOf(a[i]) := block] - {BlockOf(a[i])} == pending - {BlockOf(a[i])};
    WaitingNext(frags, size, pending, block, i);
    SentNext(frags, size, out, block, i);
  }

  ghost predicate FullBlocks(pending: map<nat, Buffer>) { forall b | b in pending :: |pending[b]| == FULL_BLOCK }

  lemma NonePending()
    ensures FullBlocks(map[])
  {
  }

  lemma StillFull(pending: map<nat, Buffer>, b: nat, block: Buffer)
    requires FullBlocks(pending) && |block| == FULL_BLOCK
    ensures FullBlocks(pending[b := block]) && FullBlocks(pending[b := block] - {b})
  {
  }

  lemma UnusedIsUnnamed(a: seq<nat>, bat: Table, first: nat, i: nat)
    requires i < |a| && Places(bat, a, first) && BlockOf(a[i]) < |bat| && bat[BlockOf(a[i])] == BLOCK_UNUSED
    ensures !Named(a, first)
  {
    var j := HasLast(a, i);
    DoneBound(a, j, |a|);
  }

  lemma {:induction false} LastDone(a: seq<nat>, n: nat) returns (j: nat)
    requires n <= |a| && Done(a, n) > 0
    ensures j < n && IsLast(a, j) && Done(a, j) + 1 == Done(a, n)
  {
    if IsLast(a, n - 1) {
      j := n - 1;
    } else {
      j := LastDone(a, n - 1);
    }
  }

  lemma StartBehind(a: seq<nat>, bat: Table, last: map<nat, nat>, position: nat)
    ensures Behind(a, bat, last, position, 0)
  {
  }

  lemma EndOnTrack(frags: seq<Fragment>, size: nat, first: nat, pending: map<nat, Buffer>, out: Buffer, position: nat)
    requires Fragments(frags, size)
    ensures OnTrack(frags, size, first, pending, out, position, |frags|) ==> Sent(frags, size, out, |frags|)
  {
  }

  lemma AllNamed(a: seq<nat>, bat: Table, last: map<nat, nat>, position: nat, first: nat)
    requires Places(bat, a, first) && Behind(a, bat, last, position, |a|)
    ensures Named(a, first)
  {
    if Done(a, |a|) > 0 {
      var j := LastDone(a, |a|);
      assert bat[BlockOf(a[j])] == PlaceOf(a, first, j);
    }
  }

  /** The buffer of the fragment's block, new if need be, with the fragment in it. */
  method TakeFragment(frags: seq<Fragment>, size: nat, pending: map<nat, Buffer>, i: nat) returns (block: Buffer)
    requires Fragments(frags, size) && i < |frags| && FullBlocks(pending)
    ensures |block| == FULL_BLOCK
    ensures Waiting(frags, size, pending, i) ==> HoldsFragments(block, frags, size, BlockOf(frags[i].address), i + 1)
  {
    var b := BlockOf(frags[i].address);
    var found := if b in pending then pending[b] else Zeros(FULL_BLOCK);
    block := InsertFragment(frags[i], found, size);
    hide Waiting, HoldsFragments, Test, SectorIn, Start, BlockOf;
    if Waiting(frags, size, pending, i) {
      WaitingBlock(frags, size, pending, i);
      Inserted(frags, size, found, block, i);
    }
  }

  /** One fragment: it joins its block, which is sent if it is complete. */
  method SendFragment(frags: seq<Fragment>, size: nat, bat: Table, last: map<nat, nat>, ghost first: nat,
                      pending: map<nat, Buffer>, out: Buffer, position: nat, i: nat)
    returns (ok: bool, pending': map<nat, Buffer>, out': Buffer, position': nat)
    requires Fragments(frags, size) && LastAddresses(last, Addresses(frags), 0) && Places(bat, Addresses(frags), first)
    requires i < |frags| && BlockOf(frags[i].address) < |bat| && FullBlocks(pending)
    requires Behind(Addresses(frags), bat, last, position, i)
    ensures ok ==> FullBlocks(pending') && Behind(Addresses(frags), bat, last, position', i + 1)
    ensures OneEach(Addresses(frags)) && Named(Addresses(frags), first)
        && OnTrack(frags, size, first, pending, out, position, i)
      ==> ok && OnTrack(frags, size, first, pending', out', position', i + 1)
  {
    hide Behind, Waiting, Sent, PlaceOf, FullBlocks, LastAddresses, Places, OneEach, Named, Completes, HoldsFragments,
      BlockOf, Fragments;
    ghost var a := Addresses(frags);
    var b := BlockOf(frags[i].address);
    var block := TakeFragment(frags, size, pending, i);
    StillFull(pending, b, block);
    pending', out', position' := pending[b := block], out, position;
    if bat[b] == BLOCK_UNUSED {
      UnusedIsUnnamed(a, bat, first, i);
      return false, pending', out', position';
    }
    if OneEach(a) && Named(a, first) && OnTrack(frags, size, first, pending, out, position, i) {
      StepOnTrack(frags, size, first, pending, out, position, block, last, bat, i);
    }
    if Completes(last, frags[i].address) {
      pending' := pending' - {b};
      if position != SECTOR * bat[b] {
        return false, pending', out', position';
      }
      BehindSent(a, bat, last, b, position, i);
      out', position' := out + block, position + |block|;
    } else {
      BehindNext(a, bat, last, position, i);
    }
    ok := true;
  }

  /** generateBlocks: the blocks of the stream, or None when an assertion fails. */
  method GenerateBlocks(frags: seq<Fragment>, size: nat, bat: Table, last: map<nat, nat>, first: nat)
    returns (r: Option<Buffer>)
    requires Fragments(frags, size) && LastAddresses(last, Addresses(frags), 0) && Places(bat, Addresses(frags), first)
    requires forall i | 0 <= i < |frags| :: BlockOf(frags[i].address) < |bat|
    ensures r.Some? <==> OneEach(Addresses(frags)) && Named(Addresses(frags), first)
    ensures r.Some? ==> Sent(frags, size, r.value, |frags|)
  {
    hide Behind, OnTrack, FullBlocks, Sent, OneEach, Named, LastAddresses, Places, Fragments, BlockOf, Addresses;
    ghost var a := Addresses(frags);
    var pending: map<nat, Buffer> := map[];
    var out: Buffer := [];
    var position: nat := SECTOR * first;
    StartOnTrack(frags, size, first);
    StartBehind(a, bat, last, position);
    NonePending();
    for i := 0 to |frags|
      invariant Behind(a, bat, last, position, i) && FullBlocks(pending)
      invariant OneEach(a) && Named(a, first) ==> OnTrack(frags, size, first, pending, out, position, i)
    {
      var ok;
      ok, pending, out, position := SendFragment(frags, size, bat, last, first, pending, out, position, i);
      if !ok {
        return None;
      }
    }
    NotTwice(a, bat, last, position);
    AllNamed(a, bat, last, position, first);
    EndOnTrack(frags, size, first, pending, out, position);
    return Some(out);
  }
}
