/** The stream parser: headers first, then what the index lists, in the order of the offsets. */
module VhdParse {
  import opened Options
  import opened Bytes
  import opened VhdFormat
  import opened VhdLayout
  import opened Sorting

  const CHUNK_LIMIT: int := 0x4000_0000

  datatype Kind = OfLocator(id: nat) | OfTable | OfBlock(id: nat)

  datatype Entry = Entry(kind: Kind, offset: nat, size: nat)

  datatype Item =
    | FooterItem(footer: Footer)
    | HeaderItem(header: Header)
    | TableItem(buffer: Buffer, blockCount: nat)
    | LocatorItem(id: nat, buffer: Buffer)
    | BlockItem(id: nat, bitmap: Buffer, data: Buffer)

  // ----- what a stream parses to --------------------------------------------------------------------

  /** A chunk is never empty nor as long as 1 GiB, and the stream must not end before it. */
  function Chunk(stream: Buffer, read: nat, offset: nat, size: nat): (r: Option<Buffer>)
    ensures r.Some? ==> |r.value| == size && offset + size <= |stream| && r.value == stream[offset..offset + size]
  {
    if read <= offset && 0 < size < CHUNK_LIMIT && offset + size <= |stream| then Some(stream[offset..offset + size])
    else None
  }

  function ByOffset(e: Entry): Key { Key(e.offset as real, 0.0, 0.0) }

  /** The parent locators among the first `i` that take space. */
  function LocatorEntries(ls: seq<Locator>, i: nat): seq<Entry>
    requires i <= |ls|
  {
    if i == 0 then []
    else
      var l := ls[i - 1];
      LocatorEntries(ls, i - 1)
      + if l.platformDataSpace == 0 then [] else [Entry(OfLocator(i - 1), l.platformDataOffset, l.platformDataLength)]
  }

  function TableEntry(h: Header): Entry { Entry(OfTable, h.tableOffset, BatSize(h.maxTableEntries)) }

  function Word(buffer: Buffer, i: nat): (w: int)
    requires 4 * i + 4 <= |buffer|
    ensures 0 <= w < U32_LIMIT
  {
    FromU32(buffer[4 * i..4 * i + 4])
  }

  function BlockSize(h: Header): nat { SECTOR * FullBlockSectors(h) }

  /** The blocks among the first `i`; None if one starts before the end of the table. */
  function BlockEntries(h: Header, buffer: Buffer, i: nat): (r: Option<seq<Entry>>)
    requires 4 * i <= |buffer|
  {
    if i == 0 then Some([])
    else
      var front, sector := BlockEntries(h, buffer, i - 1), Word(buffer, i - 1);
      if front.None? || sector == BLOCK_UNUSED then front
      else if sector * SECTOR < h.tableOffset + BatSize(h.maxTableEntries) then None
      else Some(front.value + [Entry(OfBlock(i - 1), sector * SECTOR, BlockSize(h))])
  }

  function ItemOf(h: Header, e: Entry, buffer: Buffer, blockCount: nat): Item {
    match e.kind
    case OfLocator(id) => LocatorItem(id, buffer)
    case OfTable => TableItem(buffer, blockCount)
    case OfBlock(id) =>
      var bitmapSize := BlockSize(h) - h.blockSize;
      if 0 <= bitmapSize <= |buffer| then BlockItem(id, buffer[..bitmapSize], buffer[bitmapSize..])
      else BlockItem(id, buffer, [])
  }

  /** Parsed items and the number of bytes read. */
  datatype Progress = Progress(items: seq<Item>, read: nat)

  /** Items before those of `rest`. */
  function Then(items: seq<Item>, rest: Option<Progress>): Option<Progress> {
    if rest.None? then None else Some(Progress(items + rest.value.items, rest.value.read))
  }

  lemma ThenThen(a: seq<Item>, b: seq<Item>, rest: Option<Progress>)
    ensures Then(a, Then(b, rest)) == Then(a + b, rest)
  {
    if rest.Some? {
      assert a + (b + rest.value.items) == a + b + rest.value.items;
    }
  }

  lemma ThenNone(a: seq<Item>)
    ensures Then(a, None) == None
  {
  }

  lemma ThenNothing(rest: Option<Progress>)
    ensures Then([], rest) == rest
  {
    if rest.Some? {
      assert [] + rest.value.items == rest.value.items;
    }
  }

  /** The entries of `index`, one after the other. */
  function ParseIndex(stream: Buffer, h: Header, read: nat, index: seq<Entry>): (r: Option<Progress>)
    decreases |index|
  {
    if index == [] then Some(Progress([], read))
    else
      var chunk := Chunk(stream, read, index[0].offset, index[0].size);
      if chunk.None? then None
      else
        Then([ItemOf(h, index[0], chunk.value, 0)], ParseIndex(stream, h, index[0].offset + index[0].size, index[1..]))
  }

  /** The table adds the blocks to the index. */
  function AfterTable(stream: Buffer, h: Header, e: Entry, buffer: Buffer, index: seq<Entry>): Option<Progress> {
    if 4 * h.maxTableEntries > |buffer| then None
    else
      var blocks := BlockEntries(h, buffer, h.maxTableEntries);
      if blocks.None? then None
      else
        Then([ItemOf(h, e, buffer, |blocks.value|)],
             ParseIndex(stream, h, e.offset + e.size, SortBy(index + blocks.value, ByOffset)))
  }

  /** From `index` up to the table, then the rest. */
  function ParseTable(stream: Buffer, h: Header, read: nat, index: seq<Entry>): (r: Option<Progress>)
    decreases |index|
  {
    if index == [] then None
    else
      var e := index[0];
      var chunk := Chunk(stream, read, e.offset, e.size);
      if chunk.None? then None
      else if e.kind == OfTable then AfterTable(stream, h, e, chunk.value, index[1..])
      else Then([ItemOf(h, e, chunk.value, 0)], ParseTable(stream, h, e.offset + e.size, index[1..]))
  }

  function FirstIndex(h: Header): seq<Entry> {
    SortBy(LocatorEntries(h.locators, |h.locators|) + [TableEntry(h)], ByOffset)
  }

  /** The last 512 bytes, or all of them if there are fewer. */
  function LastSector(b: Buffer): Buffer { if |b| > SECTOR then b[|b| - SECTOR..] else b }

  /** The first footer and the header. */
  function ParseHeaders(stream: Buffer): (r: Option<(Footer, Header)>)
    ensures r.Some? ==> Chunk(stream, 0, 0, FOOTER_SIZE).Some? && r.value.1.blockSize % SECTOR == 0
  {
    var first := Chunk(stream, 0, 0, FOOTER_SIZE);
    if first.None? || UnpackFooter(first.value).None? then None
    else
      var footer, second := UnpackFooter(first.value).value, Chunk(stream, FOOTER_SIZE, FOOTER_SIZE, HEADER_SIZE);
      if second.None? || UnpackHeader(second.value, footer).None? then None
      else
        var h := UnpackHeader(second.value, footer).value;
        if h.blockSize % SECTOR == 0 then Some((footer, h)) else None
  }

  function ParseStream(stream: Buffer): (r: Option<seq<Item>>)
  {
    var headers := ParseHeaders(stream);
    if headers.None? then None
    else
      var (footer, h) := headers.value;
      var rest := ParseTable(stream, h, FOOTER_SIZE + HEADER_SIZE, FirstIndex(h));
      if rest.None? || rest.value.read > |stream|
        || LastSector(stream[rest.value.read..]) != stream[..FOOTER_SIZE]
      then None
      else Some([FooterItem(footer), HeaderItem(h)] + rest.value.items)
  }

  // ----- the parser ---------------------------------------------------------------------------------

  class StreamParser {
    const stream: Buffer
    var bytesRead: nat
    var index: seq<Entry>
    var bufFooter: Buffer

    constructor (stream: Buffer)
      ensures this.stream == stream && bytesRead == 0 && index == []
    {
      this.stream, bytesRead, index, bufFooter := stream, 0, [], [];
    }

    /** Skips to `offset` and reads `size` bytes. */
    method Read(offset: nat, size: nat) returns (r: Option<Buffer>)
      modifies this`bytesRead
      ensures r == Chunk(stream, old(bytesRead), offset, size)
      ensures r.Some? ==> bytesRead == offset + size
    {
      if bytesRead > offset {
        return None;
      }
      if bytesRead < offset {
        if offset > |stream| {
          return None;
        }
        bytesRead := offset;
      }
      if size == 0 || size >= CHUNK_LIMIT || offset + size > |stream| {
        return None;
      }
      r := Some(stream[bytesRead..bytesRead + size]);
      bytesRead := bytesRead + size;
    }

    /** The blocks of the table join the index; returns how many, or None if one is before the table's end. */
    method IndexBlocks(h: Header, buffer: Buffer) returns (blockCount: Option<nat>)
      requires 4 * h.maxTableEntries <= |buffer|
      modifies this`index
      ensures var blocks := BlockEntries(h, buffer, h.maxTableEntries);
        if blocks.None? then blockCount == None
        else blockCount == Some(|blocks.value|) && index == SortBy(old(index) + blocks.value, ByOffset)
    {
      var count := 0;
      for i := 0 to h.maxTableEntries
        invariant BlockEntries(h, buffer, i).Some? && count == |BlockEntries(h, buffer, i).value|
        invariant index == old(index) + BlockEntries(h, buffer, i).value
      {
        var sector := Word(buffer, i);
        if sector != BLOCK_UNUSED {
          if sector * SECTOR < h.tableOffset + BatSize(h.maxTableEntries) {
            NoneStays(h, buffer, i + 1, h.maxTableEntries);
            return None;
          }
          index := index + [Entry(OfBlock(i), sector * SECTOR, BlockSize(h))];
          count := count + 1;
        }
      }
      index := SortBy(index, ByOffset);
      return Some(count);
    }

    /** headers(), after the header has been read: up to and with the table. */
    method HeadersToTable(h: Header) returns (items: Option<seq<Item>>)
      modifies this`index, this`bytesRead
      ensures var whole := ParseTable(stream, h, old(bytesRead), old(index));
        && (items.None? ==> whole == None)
        && (items.Some? ==> whole == Then(items.value, ParseIndex(stream, h, bytesRead, index)))
    {
      var done: seq<Item> := [];
      ghost var whole := ParseTable(stream, h, bytesRead, index);
      ThenNothing(whole);
      hide Chunk, ItemOf, AfterTable, Then, BlockEntries, SortBy, ParseIndex;
      while |index| > 0
        invariant whole == Then(done, ParseTable(stream, h, bytesRead, index))
        decreases |index|
      {
        var item, rest := index[0], index[1..];
        index := rest;
        ghost var read := bytesRead;
        var buffer := Read(item.offset, item.size);
        if buffer.None? {
          ThenNone(done);
          return None;
        }
        if item.kind == OfTable {
          var found := TableFound(h, item, buffer.value);
          ThenNone(done);
          if found.None? {
            return None;
          }
          ThenThen(done, found.value, ParseIndex(stream, h, bytesRead, index));
          return Some(done + found.value);
        }
        ThenThen(done, [ItemOf(h, item, buffer.value, 0)], ParseTable(stream, h, bytesRead, index));
        done := done + [ItemOf(h, item, buffer.value, 0)];
      }
      ThenNone(done);
      return None;
    }

    /** The item of the table, whose blocks join the index. */
    method TableFound(h: Header, item: Entry, buffer: Buffer) returns (items: Option<seq<Item>>)
      modifies this`index
      ensures var whole := AfterTable(stream, h, item, buffer, old(index));
        && (items.None? ==> whole == None)
        && (items.Some? ==> whole == Then(items.value, ParseIndex(stream, h, item.offset + item.size, index)))
    {
      hide ItemOf, Then, BlockEntries, SortBy, ParseIndex;
      if 4 * h.maxTableEntries > |buffer| {
        return None;
      }
      var blockCount := IndexBlocks(h, buffer);
      if blockCount.None? {
        return None;
      }
      return Some([ItemOf(h, item, buffer, blockCount.value)]);
    }

    /** blocks(), up to the second footer. */
    method Blocks(h: Header) returns (items: Option<seq<Item>>)
      modifies this`index, this`bytesRead
      ensures var whole := ParseIndex(stream, h, old(bytesRead), old(index));
        if items.None? then whole == None else whole == Some(Progress(items.value, bytesRead))
    {
      var done: seq<Item> := [];
      ghost var whole := ParseIndex(stream, h, bytesRead, index);
      ThenNothing(whole);
      while |index| > 0
        invariant whole == Then(done, ParseIndex(stream, h, bytesRead, index))
        decreases |index|
      {
        var item := index[0];
        index := index[1..];
        var buffer := Read(item.offset, item.size);
        if buffer.None? {
          return None;
        }
        ThenThen(done, [ItemOf(h, item, buffer.value, 0)], ParseIndex(stream, h, bytesRead, index));
        done := done + [ItemOf(h, item, buffer.value, 0)];
      }
      assert done + [] == done;
      return Some(done);
    }

    /** The whole stream: None as soon as anything is wrong. */
    method Parse() returns (r: Option<seq<Item>>)
      requires bytesRead == 0 && index == []
      modifies this
      ensures r == ParseStream(stream)
    {
      hide Chunk, ParseHeaders, ParseTable, LastSector;
      var headers := Headers();
      if headers.None? {
        return None;
      }
      StartIndex(headers.value.1);
      var items := Rest(headers.value.1);
      if items.None? || bytesRead > |stream| || LastSector(stream[bytesRead..]) != bufFooter {
        return None;
      }
      return Some([FooterItem(headers.value.0), HeaderItem(headers.value.1)] + items.value);
    }

    method Headers() returns (r: Option<(Footer, Header)>)
      requires bytesRead == 0
      modifies this`bytesRead, this`bufFooter
      ensures r == ParseHeaders(stream)
      ensures r.Some?
        ==> bytesRead == FOOTER_SIZE + HEADER_SIZE && FOOTER_SIZE <= |stream| && bufFooter == stream[..FOOTER_SIZE]
    {
      hide UnpackFooter, UnpackHeader;
      var first := Read(0, FOOTER_SIZE);
      if first.None? || UnpackFooter(first.value).None? {
        return None;
      }
      bufFooter := first.value;
      var footer := UnpackFooter(bufFooter).value;
      var second := Read(FOOTER_SIZE, HEADER_SIZE);
      if second.None? || UnpackHeader(second.value, footer).None? {
        return None;
      }
      var h := UnpackHeader(second.value, footer).value;
      if h.blockSize % SECTOR != 0 {
        return None;
      }
      return Some((footer, h));
    }

    /** The parent locators and the table, sorted. */
    method StartIndex(h: Header)
      requires index == []
      modifies this`index
      ensures index == FirstIndex(h)
    {
      hide SortBy;
      for i := 0 to |h.locators|
        invariant index == LocatorEntries(h.locators, i)
      {
        var l := h.locators[i];
        if l.platformDataSpace != 0 {
          index := index + [Entry(OfLocator(i), l.platformDataOffset, l.platformDataLength)];
        }
      }
      index := SortBy(index + [TableEntry(h)], ByOffset);
    }

    /** What the index gives, up to the second footer. */
    method Rest(h: Header) returns (items: Option<seq<Item>>)
      modifies this`index, this`bytesRead
      ensures var whole := ParseTable(stream, h, old(bytesRead), old(index));
        if items.None? then whole == None else whole == Some(Progress(items.value, bytesRead))
    {
      var upToTable := HeadersToTable(h);
      if upToTable.None? {
        return None;
      }
      var blocks := Blocks(h);
      if blocks.None? {
        return None;
      }
      return Some(upToTable.value + blocks.value);
    }
  }

  lemma {:induction false} NoneStays(h: Header, buffer: Buffer, i: nat, n: nat)
    requires i <= n && 4 * n <= |buffer| && BlockEntries(h, buffer, i) == None
    ensures BlockEntries(h, buffer, n) == None
  {
    if i < n {
      NoneStays(h, buffer, i, n - 1);
    }
  }
}
