/** Giving a VHD stream a length: whatever follows the last block is replaced by the footer. */
module VhdStreamLength {
  import opened Options
  import opened Bytes
  import opened VhdFormat
  import opened VhdLayout
  import VhdFile
  import opened VhdParse
  import opened VhdStream
  import opened VhdStreamRoundTrip

  // ----- the cutter -------------------------------------------------------------------------------------

  /** Cuts a stream at `footerOffset` and appends the footer there. */
  class EndCutter {
    const footerOffset: nat
    const footerBuffer: Buffer
    var position: nat
    var done: bool
    ghost var received: Buffer
    ghost var pushed: Buffer

    ghost predicate Valid()
      reads this
    {
      && footerOffset > 0
      && (done ==> |received| >= footerOffset && pushed == received[..footerOffset] + footerBuffer)
      && (!done ==> position == |received| < footerOffset && pushed == received)
    }

    constructor (footerOffset: nat, footerBuffer: Buffer)
      requires footerOffset > 0
      ensures Valid() && received == [] && this.footerOffset == footerOffset && this.footerBuffer == footerBuffer
    {
      this.footerOffset, this.footerBuffer, position, done := footerOffset, footerBuffer, 0, false;
      received, pushed := [], [];
    }

    method Transform(chunk: Buffer) returns (out: Buffer)
      requires Valid()
      modifies this
      ensures Valid() && received == old(received) + chunk && pushed == old(pushed) + out
    {
      var data := chunk;
      out := [];
      received := received + chunk;
      if !done {
        if position + |data| >= footerOffset {
          done := true;
          data := data[..footerOffset - position];
          out := data + footerBuffer;
        } else {
          out := data;
        }
        position := position + |data|;
      }
      pushed := pushed + out;
    }
  }

  function Joined(chunks: seq<Buffer>): Buffer {
    if chunks == [] then [] else Joined(chunks[..|chunks| - 1]) + chunks[|chunks| - 1]
  }

  /** The result depends on the bytes and not on the chunks. */
  method Cut(chunks: seq<Buffer>, footerOffset: nat, footerBuffer: Buffer) returns (out: Buffer)
    requires footerOffset > 0
    ensures var stream := Joined(chunks);
      out == if |stream| < footerOffset then stream else stream[..footerOffset] + footerBuffer
  {
    var cutter := new EndCutter(footerOffset, footerBuffer);
    out := [];
    for i := 0 to |chunks|
      invariant cutter.Valid() && cutter.footerOffset == footerOffset && cutter.footerBuffer == footerBuffer
      invariant cutter.received == Joined(chunks[..i]) && out == cutter.pushed
    {
      assert chunks[..i + 1][..i] == chunks[..i];
      var more := cutter.Transform(chunks[i]);
      out := out + more;
    }
    assert chunks[..|chunks|] == chunks;
  }

  // ----- the footer's place -------------------------------------------------------------------------------

  /** The table in the stream. */
  function TableIn(stream: Buffer, h: Header): (t: Table)
    requires h.tableOffset + 4 * h.maxTableEntries <= |stream|
    ensures |t| == h.maxTableEntries
  {
    DiskTable(stream, h.tableOffset, h.maxTableEntries)
  }

  /** The end of the last block in the stream, or of the table if there is no block. */
  ghost predicate FooterPlace(h: Header, table: Table, offset: nat) {
    if forall i: nat :: !Used(table, i) then offset == SECTOR * CeilDiv(h.tableOffset + 4 * h.maxTableEntries, SECTOR)
    else exists j: nat :: Last(table, j) && offset == SECTOR * table[j] + BlockSpace(h.blockSize)
  }

  /** Entry `j` is the block with the greatest address. */
  ghost predicate Last(table: Table, j: nat) {
    Used(table, j) && forall i: nat | Used(table, i) :: table[i] <= table[j]
  }

  /** The size of a block and its bitmap, as this module computes it. */
  function BlockSpace(blockSize: nat): nat { SECTOR * CeilDiv(blockSize, SECTOR * 8 * SECTOR) + blockSize }

  /** A chunk of a stream that has been read up to `position`; nothing is read when it is empty. */
  function ReadStream(stream: Buffer, position: nat, length: int): (r: Option<Buffer>)
    ensures r.Some? ==> 0 <= length && position <= |stream| ==> |r.value| == length && position + length <= |stream|
  {
    if length == 0 then Some([]) else if length < 0 then None else Chunk(stream, position, position, length)
  }

  /** The headers, without their checksums. */
  function UncheckedHeaders(stream: Buffer): (r: Option<(Footer, Header)>)
  {
    var first, second := ReadStream(stream, 0, FOOTER_SIZE), ReadStream(stream, FOOTER_SIZE, HEADER_SIZE);
    if first.None? || ParseFooter(first.value).None? || second.None? then None
    else
      var header := ParseHeader(second.value, ParseFooter(first.value).value);
      if header.None? then None else Some((ParseFooter(first.value).value, header.value))
  }

  method FooterOffset(stream: Buffer) returns (r: Option<(nat, Buffer)>)
    ensures r.Some? ==> FOOTER_SIZE <= |stream| && r.value.1 == stream[..FOOTER_SIZE] && r.value.0 > 0
    ensures r.Some? ==> UncheckedHeaders(stream).Some?
    ensures r.Some? ==> var h := UncheckedHeaders(stream).value.1;
              h.tableOffset + 4 * h.maxTableEntries <= |stream| && FooterPlace(h, TableIn(stream, h), r.value.0)
    ensures r.None? <==> UncheckedHeaders(stream).None? || var h := UncheckedHeaders(stream).value.1;
              h.tableOffset < FOOTER_SIZE + HEADER_SIZE || h.tableOffset + 4 * h.maxTableEntries > |stream|
              || h.tableOffset - FOOTER_SIZE - HEADER_SIZE >= CHUNK_LIMIT || 4 * h.maxTableEntries >= CHUNK_LIMIT
  {
    hide ParseFooter, ParseHeader, FooterPlace, CeilDiv;
    var footerBuffer := ReadStream(stream, 0, FOOTER_SIZE);
    if footerBuffer.None? || ParseFooter(footerBuffer.value).None? {
      return None;
    }
    var headerBuffer := ReadStream(stream, FOOTER_SIZE, HEADER_SIZE);
    if headerBuffer.None? || ParseHeader(headerBuffer.value, ParseFooter(footerBuffer.value).value).None? {
      return None;
    }
    var header := ParseHeader(headerBuffer.value, ParseFooter(footerBuffer.value).value).value;
    var streamPosition := FOOTER_SIZE + HEADER_SIZE;
    var gap := ReadStream(stream, streamPosition, header.tableOffset - streamPosition);
    if gap.None? {
      return None;
    }
    streamPosition := header.tableOffset;
    var bytes := ReadStream(stream, streamPosition, header.maxTableEntries * 4);
    if bytes.None? {
      return None;
    }
    streamPosition := streamPosition + header.maxTableEntries * 4;
    var offset := PlaceFooter(header, TableIn(stream, header), streamPosition);
    return Some((offset, footerBuffer.value));
  }

  method PlaceFooter(h: Header, table: Table, streamPosition: nat) returns (offset: nat)
    requires streamPosition == h.tableOffset + 4 * h.maxTableEntries >= FOOTER_SIZE + HEADER_SIZE
    requires (forall i | 0 <= i < |table| :: table[i] >= 0) && h.blockSize > 0
    ensures FooterPlace(h, table, offset) && offset > 0
  {
    var firstAndLast := VhdFile.GetFirstAndLastBlocks(table);
    if firstAndLast.None? {
      return SECTOR * CeilDiv(streamPosition, SECTOR);
    }
    assert Last(table, firstAndLast.value.last);
    return firstAndLast.value.lastSector * SECTOR + BlockSpace(h.blockSize);
  }

  // ----- streams of VHDs ------------------------------------------------------------------------------------

  /** Both ways to compute the space of a block agree on the block sizes a header may have. */
  lemma BlockSpaceIsFull(h: Header)
    requires ValidHeader(h) && ValidBlockSize(h)
    ensures BlockSpace(h.blockSize) == SECTOR * FullBlockSectors(h)
  {
    var n := h.blockSize;
    if n < 4096 {
      assert SectorsPerBlock(n) / 8 == 0;
    } else {
      assert IsPowerOfTwo(4096);
      var q := PowerDividesPower(n, 4096);
      assert SectorsPerBlock(n) / 8 == q;
      assert CeilDiv(n, SECTOR * 8 * SECTOR) == CeilDiv(q, SECTOR);
    }
  }

  /** The stream has something between its headers and its footer that the cutter finds. */
  predicate HasEnd(v: Vhd) {
    v.blocks != map[] || (v.header.maxTableEntries > 0 && Spaces(v.header.locators, |v.header.locators|) == 0)
  }

  /** The computed place is the place of the footer, if and only if the VHD has an end to find. */
  lemma PlaceInStream(v: Vhd, offset: nat)
    requires Wellformed(v) && Addressable(v) && FooterPlace(StreamedHeader(v.header), TableOf(v), offset)
    ensures offset <= SECTOR * NextSector(v, v.header.maxTableEntries)
    ensures offset == SECTOR * NextSector(v, v.header.maxTableEntries) <==> HasEnd(v)
  {
    if v.blocks == map[] {
      PlaceAfterTable(v, offset);
    } else {
      PlaceAfterBlocks(v, offset);
    }
  }

  lemma PlaceAfterTable(v: Vhd, offset: nat)
    requires FooterPlace(StreamedHeader(v.header), TableOf(v), offset) && v.blocks == map[]
    ensures offset <= SECTOR * NextSector(v, v.header.maxTableEntries)
    ensures offset == SECTOR * NextSector(v, v.header.maxTableEntries) <==> HasEnd(v)
  {
    NoBlocks(v, v.header.maxTableEntries);
    TableEndsAt(v);
    assert forall i: nat :: !Used(TableOf(v), i);
    hide TableOf, BatSize, Address;
  }

  lemma PlaceAfterBlocks(v: Vhd, offset: nat)
    requires Wellformed(v) && Addressable(v) && v.blocks != map[]
    requires FooterPlace(StreamedHeader(v.header), TableOf(v), offset)
    ensures offset == SECTOR * NextSector(v, v.header.maxTableEntries)
  {
    var n, table := v.header.maxTableEntries, TableOf(v);
    BlockSpaceIsFull(v.header);
    hide FullBlockSectors, BlockSpace, BatSize;
    var id :| id in v.blocks;
    assert Used(table, id);
    var j: nat :| Last(table, j) && offset == SECTOR * table[j] + BlockSpace(v.header.blockSize);
    forall i: nat | i < n && i in v.blocks ensures NextSector(v, i) <= NextSector(v, j) {
      assert Used(table, i);
    }
    LastBlock(v, n, j);
  }

  lemma {:induction false} NoBlocks(v: Vhd, n: nat)
    requires v.blocks == map[]
    ensures NextSector(v, n) == FirstBlockSector(v.header)
  {
    if n > 0 {
      NoBlocks(v, n - 1);
    }
  }

  lemma TableEndsAt(v: Vhd)
    ensures var n := v.header.maxTableEntries;
      var offset := SECTOR * CeilDiv(FOOTER_SIZE + HEADER_SIZE + 4 * n, SECTOR);
      offset == FOOTER_SIZE + HEADER_SIZE + if n == 0 then 0 else BatSize(n)
  {
  }

  /** The block with the greatest address is the last one. */
  lemma {:induction false} LastBlock(v: Vhd, n: nat, j: nat)
    requires j < n && j in v.blocks && forall i: nat | i < n && i in v.blocks :: NextSector(v, i) <= NextSector(v, j)
    ensures NextSector(v, n) == NextSector(v, j) + FullBlockSectors(v.header)
  {
    if j < n - 1 {
      NextSectorBound(v, j, n - 1);
      LastBlock(v, n - 1, j);
    }
  }

  /** The table in the stream of a VHD, and its headers, without looking at the checksums. */
  lemma StreamTable(v: Vhd, tail: Buffer)
    requires Wellformed(v) && Addressable(v)
    requires |tail| == BatSize(v.header.maxTableEntries) - 4 * v.header.maxTableEntries
    ensures var stream, h := StreamOf(v, tail), StreamedHeader(v.header);
      && UncheckedHeaders(stream) == Some((v.footer, h)) && |stream| >= FOOTER_SIZE
      && h.tableOffset + 4 * h.maxTableEntries <= |stream| && TableIn(stream, h) == TableOf(v)
      && stream[..FOOTER_SIZE] == stream[|stream| - FOOTER_SIZE..]
  {
    hide PackHeader, PackFooter, ValidHeader, ValidFooter, ValidBlockSize, FitsDisk, Sealed, BatSize, Joined, Slots,
      Address, VhdLayout.Entry, Word, UncheckedHeaders, StreamOf, At, TableBuffer, Wellformed, Addressable;
    var stream, h, start := StreamOf(v, tail), StreamedHeader(v.header), FOOTER_SIZE + HEADER_SIZE;
    StreamFacts(v, tail);
    UncheckedParse(v, stream);
    forall i | 0 <= i < h.maxTableEntries ensures VhdLayout.Entry(stream, start, i) == Address(v, i) {
      WordRead(v, tail, i);
      TableWord(stream, TableBuffer(v, tail), start, i);
    }
    assert TableIn(stream, h) == TableOf(v);
  }

  lemma TableWord(stream: Buffer, table: Buffer, start: nat, i: nat)
    requires At(stream, start, table) && 4 * i + 4 <= |table|
    ensures VhdLayout.Entry(stream, start, i) == Word(table, i)
  {
    SubSlice(stream, start, start + |table|, 4 * i, 4);
  }

  lemma UncheckedParse(v: Vhd, stream: Buffer)
    requires Wellformed(v) && ValidHeader(StreamedHeader(v.header)) && |stream| >= FOOTER_SIZE + HEADER_SIZE
    requires stream[..FOOTER_SIZE] == PackFooter(v.footer)
    requires stream[FOOTER_SIZE..FOOTER_SIZE + HEADER_SIZE] == PackHeader(StreamedHeader(v.header))
    ensures UncheckedHeaders(stream) == Some((v.footer, StreamedHeader(v.header)))
  {
    assert FitsDisk(StreamedHeader(v.header), v.footer);
    hide ParseFooter, ParseHeader, PackHeader, PackFooter, ValidHeader, ValidFooter, StreamedHeader, FitsDisk, Sealed;
    FooterRoundTrip(v.footer);
    HeaderRoundTrip(StreamedHeader(v.header), v.footer);
  }

  /**
   * A streamed VHD goes through byte for byte, however it is cut into chunks, if and only if it has an
   * end to find; otherwise what follows the table is lost. A table that one chunk cannot hold is refused.
   */
  method WithLength(v: Vhd, tail: Buffer, chunks: seq<Buffer>) returns (r: Option<Buffer>)
    requires Wellformed(v) && Addressable(v)
    requires |tail| == BatSize(v.header.maxTableEntries) - 4 * v.header.maxTableEntries
    requires Joined(chunks) == StreamOf(v, tail)
    ensures r.None? <==> 4 * v.header.maxTableEntries >= CHUNK_LIMIT
    ensures r.Some? ==> (r.value == StreamOf(v, tail) <==> HasEnd(v))
  {
    var stream := Joined(chunks);
    StreamTable(v, tail);
    var place := FooterOffset(stream);
    if place.None? {
      return None;
    }
    var (offset, footer) := place.value;
    PlaceInStream(v, offset);
    var out := Cut(chunks, offset, footer);
    assert stream[..|stream| - FOOTER_SIZE] + stream[|stream| - FOOTER_SIZE..] == stream;
    return Some(out);
  }
}
