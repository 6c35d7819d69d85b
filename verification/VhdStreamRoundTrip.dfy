/** Parsing a streamed VHD gives the VHD back. */
module VhdStreamRoundTrip {
  import opened Options
  import opened Bytes
  import opened VhdFormat
  import opened VhdLayout
  import opened Sorting
  import opened VhdStream
  import opened VhdParse

  // ----- the stream as a sequence of slots --------------------------------------------------------------

  /** An entry of the parser's index, and all that the stream holds up to the next one. */
  datatype Slot = Slot(entry: Entry, data: Buffer)

  function Joined(slots: seq<Slot>): Buffer {
    if slots == [] then [] else slots[0].data + Joined(slots[1..])
  }

  function Entries(slots: seq<Slot>): (es: seq<Entry>)
    ensures |es| == |slots| && forall i | 0 <= i < |slots| :: es[i] == slots[i].entry
  {
    seq(|slots|, i requires 0 <= i < |slots| => slots[i].entry)
  }

  /** Each slot starts where the one before it ends. */
  predicate Contiguous(slots: seq<Slot>, start: nat) {
    slots == []
    || (slots[0].entry.offset == start && slots[0].data != [] && Contiguous(slots[1..], start + |slots[0].data|))
  }

  lemma Associates(a: Buffer, b: Buffer, c: Buffer)
    ensures a + (b + c) == a + b + c
  {
  }

  lemma {:induction false} BytesAppend(a: seq<Slot>, b: seq<Slot>)
    ensures Joined(a + b) == Joined(a) + Joined(b)
  {
    if a == [] {
      assert a + b == b;
    } else {
      BytesAppend(a[1..], b);
      assert (a + b)[1..] == a[1..] + b;
      Associates(a[0].data, Joined(a[1..]), Joined(b));
    }
  }

  lemma {:induction false} ContiguousAppend(a: seq<Slot>, b: seq<Slot>, start: nat)
    requires Contiguous(a, start) && Contiguous(b, start + |Joined(a)|)
    ensures Contiguous(a + b, start)
  {
    if a == [] {
      assert a + b == b;
    } else {
      ContiguousAppend(a[1..], b, start + |a[0].data|);
      assert (a + b)[1..] == a[1..] + b;
    }
  }

  lemma {:induction false} ContiguousSorted(slots: seq<Slot>, start: nat)
    requires Contiguous(slots, start)
    ensures Sorted(Entries(slots), ByOffset) && forall e | e in Entries(slots) :: e.offset >= start
  {
    if slots != [] {
      ContiguousSorted(slots[1..], start + |slots[0].data|);
      var es, rest := Entries(slots), Entries(slots[1..]);
      assert forall i | 1 <= i < |es| :: es[i] == rest[i - 1] && es[i] in rest;
    }
  }

  // ----- reading slots ------------------------------------------------------------------------------------

  /** The parser reads this slot's entry and stays inside the slot. */
  predicate Fits(slot: Slot) { 0 < slot.entry.size < CHUNK_LIMIT && slot.entry.size <= |slot.data| }

  predicate AllFit(slots: seq<Slot>) { slots == [] || (Fits(slots[0]) && AllFit(slots[1..])) }

  function Items(h: Header, slots: seq<Slot>): seq<Item>
    requires AllFit(slots)
  {
    if slots == [] then []
    else [ItemOf(h, slots[0].entry, slots[0].data[..slots[0].entry.size], 0)] + Items(h, slots[1..])
  }

  lemma AllFitAppend(a: seq<Slot>, b: seq<Slot>, h: Header)
    ensures AllFit(a + b) <==> AllFit(a) && AllFit(b)
    ensures AllFit(a + b) ==> Items(h, a + b) == Items(h, a) + Items(h, b)
  {
    if a == [] {
      assert a + b == b;
    } else {
      AllFitAppend(a[1..], b, h);
      assert (a + b)[1..] == a[1..] + b;
    }
  }

  /** Reading slots gives their items, and stays in front of the last footer, if and only if all fit. */
  lemma {:induction false} SlotsParse(stream: Buffer, h: Header, read: nat, slots: seq<Slot>, start: nat)
    requires Contiguous(slots, start) && read <= start && At(stream, start, Joined(slots))
    requires |stream| == start + |Joined(slots)| + FOOTER_SIZE
    ensures var r := ParseIndex(stream, h, read, Entries(slots));
      if AllFit(slots) then r.Some? && r.value.items == Items(h, slots) && r.value.read <= |stream| - FOOTER_SIZE
      else r.None? || r.value.read > |stream| - FOOTER_SIZE
    decreases |slots|
  {
    if slots != [] {
      var slot, rest := slots[0], slots[1..];
      var next, after := start + |slot.data|, slot.entry.offset + slot.entry.size;
      assert Entries(slots)[1..] == Entries(rest);
      FirstSlot(stream, slot, Joined(rest), start);
      if Fits(slot) {
        SlotsParse(stream, h, after, rest, next);
      } else if rest != [] && after > next {
        assert Entries(rest)[0].offset == next;
        assert ParseIndex(stream, h, after, Entries(rest)) == None;
      }
    }
  }

  lemma FirstSlot(stream: Buffer, slot: Slot, rest: Buffer, start: nat)
    requires At(stream, start, slot.data + rest)
    ensures At(stream, start + |slot.data|, rest)
    ensures slot.entry.size <= |slot.data| ==> stream[start..start + slot.entry.size] == slot.data[..slot.entry.size]
  {
    var whole := slot.data + rest;
    assert stream[start..start + |whole|] == whole;
    assert rest == whole[|slot.data|..];
    if slot.entry.size <= |slot.data| {
      assert slot.data[..slot.entry.size] == whole[..slot.entry.size];
    }
  }

  // ----- the slots of a VHD -----------------------------------------------------------------------------------

  function LocatorSlot(v: Vhd, i: nat): Slot
    requires i < |v.header.locators| <= |v.locatorData|
  {
    var l := v.header.locators[i];
    Slot(Entry(OfLocator(i), SECTOR * LocatorSector(v.header, i), l.platformDataLength),
         Aligned(v.locatorData[i], SECTOR * l.platformDataSpace))
  }

  function LocatorSlots(v: Vhd, i: nat): seq<Slot>
    requires i <= |v.header.locators| <= |v.locatorData|
  {
    if i == 0 then []
    else if v.header.locators[i - 1].platformDataSpace == 0 then LocatorSlots(v, i - 1)
    else LocatorSlots(v, i - 1) + [LocatorSlot(v, i - 1)]
  }

  function BlockSlot(v: Vhd, i: nat): Slot
    requires i in v.blocks
  {
    Slot(Entry(OfBlock(i), SECTOR * NextSector(v, i), BlockSize(v.header)), v.blocks[i])
  }

  function BlockSlots(v: Vhd, i: nat): seq<Slot> {
    if i == 0 then []
    else if i - 1 in v.blocks then BlockSlots(v, i - 1) + [BlockSlot(v, i - 1)]
    else BlockSlots(v, i - 1)
  }

  lemma AppendSlot(slots: seq<Slot>, slot: Slot, start: nat)
    requires Contiguous(slots, start) && slot.data != [] && slot.entry.offset == start + |Joined(slots)|
    ensures Contiguous(slots + [slot], start) && Joined(slots + [slot]) == Joined(slots) + slot.data
  {
    assert [slot][1..] == [] && Joined([]) == [];
    assert slot.data + [] == slot.data;
    BytesAppend(slots, [slot]);
    ContiguousAppend(slots, [slot], start);
  }

  lemma {:induction false} LocatorSlotsBytes(v: Vhd, i: nat)
    requires i <= |v.header.locators| <= |v.locatorData|
    ensures Joined(LocatorSlots(v, i)) == LocatorBytes(v, i)
    ensures Contiguous(LocatorSlots(v, i), SECTOR * LocatorSector(v.header, 0))
  {
    hide Contiguous, Joined, Aligned;
    if i == 0 {
      NoSlots(SECTOR * LocatorSector(v.header, 0));
    } else {
      LocatorSlotsBytes(v, i - 1);
      if v.header.locators[i - 1].platformDataSpace > 0 {
        AppendSlot(LocatorSlots(v, i - 1), LocatorSlot(v, i - 1), SECTOR * LocatorSector(v.header, 0));
      } else {
        assert LocatorBytes(v, i - 1) + Aligned(v.locatorData[i - 1], 0) == LocatorBytes(v, i - 1);
      }
    }
  }

  lemma NoSlots(start: nat)
    ensures Contiguous([], start) && Joined([]) == []
  {
  }

  lemma {:induction false} BlockSlotsBytes(v: Vhd, i: nat)
    requires forall id | id in v.blocks :: |v.blocks[id]| == SECTOR * FullBlockSectors(v.header)
    ensures Joined(BlockSlots(v, i)) == BlockBytes(v, i)
    ensures Contiguous(BlockSlots(v, i), SECTOR * FirstBlockSector(v.header))
  {
    hide Contiguous, Joined;
    if i == 0 {
      NoSlots(SECTOR * FirstBlockSector(v.header));
    } else {
      BlockSlotsBytes(v, i - 1);
      if i - 1 in v.blocks {
        AppendSlot(BlockSlots(v, i - 1), BlockSlot(v, i - 1), SECTOR * FirstBlockSector(v.header));
      }
    }
  }

  function Slots(v: Vhd): seq<Slot>
    requires |v.header.locators| <= |v.locatorData|
  {
    LocatorSlots(v, |v.header.locators|) + BlockSlots(v, v.header.maxTableEntries)
  }

  lemma SlotsBytes(v: Vhd)
    requires Wellformed(v)
    ensures Joined(Slots(v)) == LocatorBytes(v, |v.header.locators|) + BlockBytes(v, v.header.maxTableEntries)
    ensures Contiguous(Slots(v), SECTOR * LocatorSector(v.header, 0))
  {
    var a, b := LocatorSlots(v, |v.header.locators|), BlockSlots(v, v.header.maxTableEntries);
    LocatorSlotsBytes(v, |v.header.locators|);
    BlockSlotsBytes(v, v.header.maxTableEntries);
    BytesAppend(a, b);
    hide Contiguous, BlockBytes, LocatorBytes, Joined, LocatorSlots, BlockSlots;
    ContiguousAppend(a, b, SECTOR * LocatorSector(v.header, 0));
  }

  // ----- the index the parser builds ---------------------------------------------------------------------

  lemma EntriesAppend(a: seq<Slot>, b: seq<Slot>)
    ensures Entries(a + b) == Entries(a) + Entries(b)
  {
  }

  lemma {:induction false} LocatorIndex(v: Vhd, i: nat)
    requires i <= |v.header.locators| <= |v.locatorData|
    ensures LocatorEntries(StreamedHeader(v.header).locators, i) == Entries(LocatorSlots(v, i))
  {
    if i > 0 {
      LocatorIndex(v, i - 1);
      EntriesAppend(LocatorSlots(v, i - 1), [LocatorSlot(v, i - 1)]);
      assert StreamedHeader(v.header).locators[i - 1] == StreamedLocator(v.header, i - 1);
    }
  }

  /** The table comes first. */
  lemma IndexStart(v: Vhd)
    requires Wellformed(v)
    ensures FirstIndex(StreamedHeader(v.header))
      == [TableEntry(StreamedHeader(v.header))] + Entries(LocatorSlots(v, |v.header.locators|))
  {
    var h := StreamedHeader(v.header);
    var es := Entries(LocatorSlots(v, |v.header.locators|));
    LocatorIndex(v, |v.header.locators|);
    LocatorSlotsBytes(v, |v.header.locators|);
    ContiguousSorted(LocatorSlots(v, |v.header.locators|), SECTOR * LocatorSector(v.header, 0));
    SortedStays(es, ByOffset);
    InsertFirst(es, TableEntry(h), ByOffset);
    assert (es + [TableEntry(h)])[..|es|] == es;
  }

  /** The table as the parser reads it. */
  function TableBuffer(v: Vhd, tail: Buffer): (b: Buffer)
    requires forall i | 0 <= i < v.header.maxTableEntries :: 0 <= Address(v, i) < U32_LIMIT
    ensures |b| == 4 * v.header.maxTableEntries + |tail|
  {
    PackTable(TableOf(v)) + tail
  }

  lemma WordRead(v: Vhd, tail: Buffer, i: nat)
    requires i < v.header.maxTableEntries
    requires forall i | 0 <= i < v.header.maxTableEntries :: 0 <= Address(v, i) < U32_LIMIT
    ensures Word(TableBuffer(v, tail), i) == Address(v, i)
  {
    var table := PackTable(TableOf(v));
    PackTableEntry(TableOf(v), i);
    assert (table + tail)[4 * i..4 * i + 4] == table[4 * i..4 * i + 4];
    U32RoundTrip(Address(v, i));
  }

  lemma {:induction false} BlockIndex(v: Vhd, tail: Buffer, i: nat)
    requires Wellformed(v) && Addressable(v) && i <= v.header.maxTableEntries
    requires forall i | 0 <= i < v.header.maxTableEntries :: 0 <= Address(v, i) < U32_LIMIT
    ensures BlockEntries(StreamedHeader(v.header), TableBuffer(v, tail), i) == Some(Entries(BlockSlots(v, i)))
  {
    if i > 0 {
      BlockIndex(v, tail, i - 1);
      WordRead(v, tail, i - 1);
      hide TableBuffer, Wellformed, Entries;
      if i - 1 in v.blocks {
        EntriesAppend(BlockSlots(v, i - 1), [BlockSlot(v, i - 1)]);
        OneEntry(BlockSlot(v, i - 1));
        assert NextSector(v, i - 1) * SECTOR >= SECTOR * FirstBlockSector(v.header)
          >= SECTOR * (3 + TableSectors(v.header));
      }
    } else {
      assert Entries([]) == [];
    }
  }

  lemma OneEntry(slot: Slot)
    ensures Entries([slot]) == [slot.entry]
  {
  }

  /** After the table, everything else in the order of the stream. */
  lemma WholeIndex(v: Vhd)
    requires Wellformed(v)
    ensures SortBy(Entries(LocatorSlots(v, |v.header.locators|)) + Entries(BlockSlots(v, v.header.maxTableEntries)),
                   ByOffset)
      == Entries(Slots(v))
  {
    SlotsBytes(v);
    ContiguousSorted(Slots(v), SECTOR * LocatorSector(v.header, 0));
    EntriesAppend(LocatorSlots(v, |v.header.locators|), BlockSlots(v, v.header.maxTableEntries));
    SortedStays(Entries(Slots(v)), ByOffset);
  }

  // ----- the round trip ----------------------------------------------------------------------------------

  /** Used parent locators have data, no longer than their space, and every chunk is below 1 GiB. */
  predicate Readable(v: Vhd) {
    && (forall i | 0 <= i < |v.header.locators| && v.header.locators[i].platformDataSpace > 0 ::
          0 < v.header.locators[i].platformDataLength <= SECTOR * v.header.locators[i].platformDataSpace
          && v.header.locators[i].platformDataLength < CHUNK_LIMIT)
    && (v.blocks != map[] ==> BlockSize(v.header) < CHUNK_LIMIT)
    && BatSize(v.header.maxTableEntries) < CHUNK_LIMIT
  }

  function LocatorItems(v: Vhd, i: nat): seq<Item>
    requires i <= |v.header.locators| <= |v.locatorData|
  {
    if i == 0 then []
    else
      var l := v.header.locators[i - 1];
      LocatorItems(v, i - 1)
      + if l.platformDataSpace == 0 then []
        else [LocatorItem(i - 1, Aligned(v.locatorData[i - 1], l.platformDataLength))]
  }

  function BlockItems(v: Vhd, i: nat): seq<Item>
    requires forall id | id in v.blocks :: |v.blocks[id]| == SECTOR * FullBlockSectors(v.header)
  {
    if i == 0 then []
    else
      var bitmapSize := SECTOR * SectorsOfBitmap(v.header.blockSize);
      BlockItems(v, i - 1)
      + if i - 1 in v.blocks then [BlockItem(i - 1, v.blocks[i - 1][..bitmapSize], v.blocks[i - 1][bitmapSize..])]
        else []
  }

  /** The VHD, in the order of its stream. */
  function ItemsOf(v: Vhd, tail: Buffer): seq<Item>
    requires |v.header.locators| <= |v.locatorData|
    requires forall i | 0 <= i < v.header.maxTableEntries :: 0 <= Address(v, i) < U32_LIMIT
    requires forall id | id in v.blocks :: |v.blocks[id]| == SECTOR * FullBlockSectors(v.header)
  {
    var blocks := BlockItems(v, v.header.maxTableEntries);
    [FooterItem(v.footer), HeaderItem(StreamedHeader(v.header)), TableItem(TableBuffer(v, tail), |blocks|)]
    + (LocatorItems(v, |v.header.locators|) + blocks)
  }

  /** The table does not change what is read of a slot's data: it is aligned to its length. */
  lemma AlignedTwice(data: Buffer, length: nat, space: nat)
    requires length <= space
    ensures Aligned(data, space)[..length] == Aligned(data, length)
  {
  }

  lemma {:induction false} LocatorsFit(v: Vhd, h: Header, i: nat)
    requires i <= |v.header.locators| <= |v.locatorData|
    ensures AllFit(LocatorSlots(v, i)) <==> forall j | 0 <= j < i && v.header.locators[j].platformDataSpace > 0 ::
      0 < v.header.locators[j].platformDataLength <= SECTOR * v.header.locators[j].platformDataSpace
      && v.header.locators[j].platformDataLength < CHUNK_LIMIT
    ensures AllFit(LocatorSlots(v, i)) ==> Items(h, LocatorSlots(v, i)) == LocatorItems(v, i)
  {
    if i > 0 {
      LocatorsFit(v, h, i - 1);
      var slot, l := LocatorSlot(v, i - 1), v.header.locators[i - 1];
      if l.platformDataSpace > 0 {
        AllFitAppend(LocatorSlots(v, i - 1), [slot], h);
        OneFits(h, slot);
        if Fits(slot) {
          AlignedTwice(v.locatorData[i - 1], l.platformDataLength, SECTOR * l.platformDataSpace);
        }
      }
    }
  }

  lemma OneFits(h: Header, slot: Slot)
    ensures AllFit([slot]) <==> Fits(slot)
    ensures Fits(slot) ==> Items(h, [slot]) == [ItemOf(h, slot.entry, slot.data[..slot.entry.size], 0)]
  {
    assert [slot][1..] == [];
  }

  lemma {:induction false} BlocksFit(v: Vhd, h: Header, i: nat)
    requires forall id | id in v.blocks :: |v.blocks[id]| == SECTOR * FullBlockSectors(v.header)
    requires h.blockSize == v.header.blockSize && ValidBlockSize(h)
    ensures AllFit(BlockSlots(v, i)) <==> BlockSize(v.header) < CHUNK_LIMIT || forall j | 0 <= j < i :: j !in v.blocks
    ensures AllFit(BlockSlots(v, i)) ==> Items(h, BlockSlots(v, i)) == BlockItems(v, i)
    ensures |BlockSlots(v, i)| == |BlockItems(v, i)|
  {
    if i > 0 {
      BlocksFit(v, h, i - 1);
      if i - 1 in v.blocks {
        var slot := BlockSlot(v, i - 1);
        AllFitAppend(BlockSlots(v, i - 1), [slot], h);
        OneFits(h, slot);
        assert slot.data[..slot.entry.size] == slot.data;
        assert BlockSize(h) - h.blockSize == SECTOR * SectorsOfBitmap(h.blockSize);
      }
    }
  }

  lemma ReadableFits(v: Vhd)
    requires Wellformed(v)
    ensures Readable(v) <==> AllFit(Slots(v)) && BatSize(v.header.maxTableEntries) < CHUNK_LIMIT
    ensures AllFit(Slots(v))
      ==> Items(StreamedHeader(v.header), Slots(v))
          == LocatorItems(v, |v.header.locators|) + BlockItems(v, v.header.maxTableEntries)
    ensures |BlockSlots(v, v.header.maxTableEntries)| == |BlockItems(v, v.header.maxTableEntries)|
  {
    var h := StreamedHeader(v.header);
    LocatorsFit(v, h, |v.header.locators|);
    BlocksFit(v, h, v.header.maxTableEntries);
    AllFitAppend(LocatorSlots(v, |v.header.locators|), BlockSlots(v, v.header.maxTableEntries), h);
    assert v.blocks == map[] <==> forall j | 0 <= j < v.header.maxTableEntries :: j !in v.blocks by {
      assert forall id | id in v.blocks :: 0 <= id < v.header.maxTableEntries;
    }
  }

  /** The stream in three parts: footer, header and table, then the slots, then the footer again. */
  lemma StreamParts(v: Vhd, tail: Buffer)
    requires Wellformed(v) && Addressable(v)
    requires |tail| == BatSize(v.header.maxTableEntries) - 4 * v.header.maxTableEntries
    ensures ValidHeader(StreamedHeader(v.header))
    ensures forall i | 0 <= i < v.header.maxTableEntries :: 0 <= Address(v, i) < U32_LIMIT
    ensures StreamOf(v, tail) == PackFooter(v.footer)
      + (PackHeader(StreamedHeader(v.header)) + (TableBuffer(v, tail) + (Joined(Slots(v)) + PackFooter(v.footer))))
  {
    hide PackHeader, PackFooter, PackTable, Joined, Slots, LocatorBytes, BlockBytes, StreamedHeader, BatSize,
      ValidHeader, ValidFooter, ValidBlockSize, FitsDisk, NextSector, Contiguous;
    StreamedHeaderValid(v.header);
    SlotsBytes(v);
  }

  lemma StreamSlices(stream: Buffer, footer: Buffer, header: Buffer, table: Buffer, slots: Buffer)
    requires stream == footer + (header + (table + (slots + footer)))
    requires |footer| == FOOTER_SIZE && |header| == HEADER_SIZE
    ensures stream[..FOOTER_SIZE] == footer && stream[FOOTER_SIZE..FOOTER_SIZE + HEADER_SIZE] == header
    ensures stream[FOOTER_SIZE + HEADER_SIZE..FOOTER_SIZE + HEADER_SIZE + |table|] == table
    ensures At(stream, FOOTER_SIZE + HEADER_SIZE + |table|, slots)
    ensures stream[|stream| - FOOTER_SIZE..] == footer
  {
    var r1 := header + (table + (slots + footer));
    var r2 := table + (slots + footer);
    Chop(stream, footer, r1, stream, 0);
    Chop(r1, header, r2, stream, FOOTER_SIZE);
    Chop(r2, table, slots + footer, stream, FOOTER_SIZE + HEADER_SIZE);
    Chop(slots + footer, slots, footer, stream, FOOTER_SIZE + HEADER_SIZE + |table|);
  }

  /** The parts of the stream, by position. */
  ghost predicate Shaped(stream: Buffer, v: Vhd, tail: Buffer)
    requires |v.header.locators| <= |v.locatorData| && ValidFooter(v.footer) && ValidHeader(StreamedHeader(v.header))
    requires forall i | 0 <= i < v.header.maxTableEntries :: 0 <= Address(v, i) < U32_LIMIT
  {
    var start := FOOTER_SIZE + HEADER_SIZE + BatSize(v.header.maxTableEntries);
    && |stream| == start + |Joined(Slots(v))| + FOOTER_SIZE
    && stream[..FOOTER_SIZE] == PackFooter(v.footer) == stream[|stream| - FOOTER_SIZE..]
    && stream[FOOTER_SIZE..FOOTER_SIZE + HEADER_SIZE] == PackHeader(StreamedHeader(v.header))
    && stream[FOOTER_SIZE + HEADER_SIZE..start] == TableBuffer(v, tail)
    && At(stream, start, Joined(Slots(v)))
  }

  lemma StreamFacts(v: Vhd, tail: Buffer)
    requires Wellformed(v) && Addressable(v)
    requires |tail| == BatSize(v.header.maxTableEntries) - 4 * v.header.maxTableEntries
    ensures ValidHeader(StreamedHeader(v.header)) && |v.header.locators| <= |v.locatorData| && ValidFooter(v.footer)
    ensures forall i | 0 <= i < v.header.maxTableEntries :: 0 <= Address(v, i) < U32_LIMIT
    ensures Shaped(StreamOf(v, tail), v, tail)
  {
    StreamParts(v, tail);
    hide StreamOf, PackHeader, PackFooter, Joined, Slots, BatSize, Address;
    StreamSlices(StreamOf(v, tail), PackFooter(v.footer), PackHeader(StreamedHeader(v.header)), TableBuffer(v, tail),
                 Joined(Slots(v)));
  }

  lemma HeadersParse(v: Vhd, stream: Buffer)
    requires Wellformed(v) && ValidHeader(StreamedHeader(v.header)) && |stream| >= FOOTER_SIZE + HEADER_SIZE
    requires stream[..FOOTER_SIZE] == PackFooter(v.footer)
    requires stream[FOOTER_SIZE..FOOTER_SIZE + HEADER_SIZE] == PackHeader(StreamedHeader(v.header))
    ensures ParseHeaders(stream) == Some((v.footer, StreamedHeader(v.header)))
  {
    assert FitsDisk(StreamedHeader(v.header), v.footer) && ValidFooter(v.footer);
    assert StreamedHeader(v.header).blockSize % SECTOR == 0;
    hide UnpackFooter, UnpackHeader, PackHeader, PackFooter, ValidHeader, ValidFooter, StreamedHeader, FitsDisk,
      Wellformed;
    FooterRoundTrip(v.footer);
    HeaderRoundTrip(StreamedHeader(v.header), v.footer);
  }

  /** The index before and after the table, for the locators, the blocks and all of them in order. */
  ghost predicate Indexed(h: Header, table: Buffer, locators: seq<Entry>, blocks: seq<Entry>, all: seq<Entry>) {
    && 4 * h.maxTableEntries <= |table|
    && FirstIndex(h) == [TableEntry(h)] + locators
    && BlockEntries(h, table, h.maxTableEntries) == Some(blocks)
    && SortBy(locators + blocks, ByOffset) == all
  }

  lemma IsIndexed(v: Vhd, tail: Buffer)
    requires Wellformed(v) && Addressable(v)
    requires |tail| == BatSize(v.header.maxTableEntries) - 4 * v.header.maxTableEntries
    requires forall i | 0 <= i < v.header.maxTableEntries :: 0 <= Address(v, i) < U32_LIMIT
    ensures |v.header.locators| <= |v.locatorData|
    ensures Indexed(StreamedHeader(v.header), TableBuffer(v, tail), Entries(LocatorSlots(v, |v.header.locators|)),
                    Entries(BlockSlots(v, v.header.maxTableEntries)), Entries(Slots(v)))
  {
    SizesOf(v);
    hide Wellformed, Addressable, TableBuffer, BatSize, Address, BlockSlots, FirstIndex, Entries, Slots, LocatorSlots,
      BlockEntries, SortBy, StreamedHeader;
    IndexStart(v);
    BlockIndex(v, tail, v.header.maxTableEntries);
    WholeIndex(v);
  }

  /** The table is followed by the slots if it is not too long. */
  ghost predicate TableGives(stream: Buffer, h: Header, table: Buffer, blocks: seq<Slot>, all: seq<Slot>) {
    var start := FOOTER_SIZE + HEADER_SIZE;
    ParseTable(stream, h, start, FirstIndex(h))
    == if BatSize(h.maxTableEntries) >= CHUNK_LIMIT then None
       else Then([TableItem(table, |blocks|)],
                 ParseIndex(stream, h, start + BatSize(h.maxTableEntries), Entries(all)))
  }

  /** The stream has the table in its place. */
  ghost predicate TableInPlace(stream: Buffer, h: Header, table: Buffer) {
    var start, size := FOOTER_SIZE + HEADER_SIZE, BatSize(h.maxTableEntries);
    h.tableOffset == start && |table| == size && start + size <= |stream| && stream[start..start + size] == table
  }

  lemma TableParses(v: Vhd, tail: Buffer, stream: Buffer)
    requires Wellformed(v) && Addressable(v)
    requires |tail| == BatSize(v.header.maxTableEntries) - 4 * v.header.maxTableEntries
    requires forall i | 0 <= i < v.header.maxTableEntries :: 0 <= Address(v, i) < U32_LIMIT
    requires FOOTER_SIZE + HEADER_SIZE + BatSize(v.header.maxTableEntries) <= |stream|
    requires stream[FOOTER_SIZE + HEADER_SIZE..FOOTER_SIZE + HEADER_SIZE + BatSize(v.header.maxTableEntries)]
      == TableBuffer(v, tail)
    ensures |v.header.locators| <= |v.locatorData|
    ensures TableGives(stream, StreamedHeader(v.header), TableBuffer(v, tail), BlockSlots(v, v.header.maxTableEntries),
                       Slots(v))
  {
    IsInPlace(v, tail, stream);
    hide *;
    IsIndexed(v, tail);
    TableOfSlots(stream, StreamedHeader(v.header), TableBuffer(v, tail), LocatorSlots(v, |v.header.locators|),
                 BlockSlots(v, v.header.maxTableEntries), Slots(v));
  }

  lemma SizesOf(v: Vhd)
    requires Wellformed(v)
    ensures |v.header.locators| <= |v.locatorData|
    ensures forall id | id in v.blocks :: |v.blocks[id]| == SECTOR * FullBlockSectors(v.header)
  {
  }

  /** The table is read first, and the index is sorted again with the blocks. */
  lemma TableFirst(stream: Buffer, h: Header, table: Buffer, locators: seq<Entry>, blocks: seq<Entry>, all: seq<Entry>)
    requires TableInPlace(stream, h, table) && Indexed(h, table, locators, blocks, all)
    ensures var start := FOOTER_SIZE + HEADER_SIZE;
      ParseTable(stream, h, start, FirstIndex(h))
      == if BatSize(h.maxTableEntries) >= CHUNK_LIMIT then None
         else Then([TableItem(table, |blocks|)], ParseIndex(stream, h, start + BatSize(h.maxTableEntries), all))
  {
    hide Then, ParseIndex, SortBy, BlockEntries, BatSize, FirstIndex, Chunk, ItemOf, AfterTable, ParseTable;
    var start, size, e := FOOTER_SIZE + HEADER_SIZE, BatSize(h.maxTableEntries), TableEntry(h);
    TableStep(stream, h, start, e, locators);
    TableChunk(stream, start, size, table);
    if size < CHUNK_LIMIT {
      TableItemOf(h, e, table, |blocks|);
      TableAdds(stream, h, e, table, locators, blocks);
    }
  }

  lemma TableOfSlots(stream: Buffer, h: Header, table: Buffer, locators: seq<Slot>, blocks: seq<Slot>, all: seq<Slot>)
    requires TableInPlace(stream, h, table) && Indexed(h, table, Entries(locators), Entries(blocks), Entries(all))
    ensures TableGives(stream, h, table, blocks, all)
  {
    hide Then, ParseIndex, BatSize, FirstIndex, ParseTable, Entries, TableInPlace, Indexed;
    TableFirst(stream, h, table, Entries(locators), Entries(blocks), Entries(all));
  }

  lemma IsInPlace(v: Vhd, tail: Buffer, stream: Buffer)
    requires Wellformed(v) && Addressable(v)
    requires |tail| == BatSize(v.header.maxTableEntries) - 4 * v.header.maxTableEntries
    requires forall i | 0 <= i < v.header.maxTableEntries :: 0 <= Address(v, i) < U32_LIMIT
    requires FOOTER_SIZE + HEADER_SIZE + BatSize(v.header.maxTableEntries) <= |stream|
    requires stream[FOOTER_SIZE + HEADER_SIZE..FOOTER_SIZE + HEADER_SIZE + BatSize(v.header.maxTableEntries)]
      == TableBuffer(v, tail)
    ensures TableInPlace(stream, StreamedHeader(v.header), TableBuffer(v, tail))
  {
    hide Wellformed, Addressable, TableBuffer, BatSize, Address;
  }

  lemma TableStep(stream: Buffer, h: Header, read: nat, e: Entry, index: seq<Entry>)
    requires e.kind == OfTable
    ensures var chunk := Chunk(stream, read, e.offset, e.size);
      ParseTable(stream, h, read, [e] + index) == if chunk.None? then None
        else AfterTable(stream, h, e, chunk.value, index)
  {
    hide Chunk, AfterTable;
    assert ([e] + index)[1..] == index;
  }

  lemma TableChunk(stream: Buffer, start: nat, size: nat, table: Buffer)
    requires start + size <= |stream| && stream[start..start + size] == table && size > 0
    ensures Chunk(stream, start, start, size) == if size < CHUNK_LIMIT then Some(table) else None
  {
  }

  lemma TableItemOf(h: Header, e: Entry, table: Buffer, count: nat)
    requires e.kind == OfTable
    ensures ItemOf(h, e, table, count) == TableItem(table, count)
  {
  }

  lemma TableAdds(stream: Buffer, h: Header, e: Entry, table: Buffer, index: seq<Entry>, blocks: seq<Entry>)
    requires 4 * h.maxTableEntries <= |table| && BlockEntries(h, table, h.maxTableEntries) == Some(blocks)
    ensures AfterTable(stream, h, e, table, index)
      == Then([ItemOf(h, e, table, |blocks|)], ParseIndex(stream, h, e.offset + e.size,
              SortBy(index + blocks, ByOffset)))
  {
    hide Then, ParseIndex, SortBy, BlockEntries, ItemOf;
  }

  lemma Assemble(stream: Buffer, f: Footer, h: Header, item: Item, slots: Option<Progress>, fit: bool, items: seq<Item>)
    requires FOOTER_SIZE <= |stream| && ParseHeaders(stream) == Some((f, h))
    requires ParseTable(stream, h, FOOTER_SIZE + HEADER_SIZE, FirstIndex(h)) == Then([item], slots)
    requires fit ==> slots.Some? && slots.value.items == items && slots.value.read <= |stream| - FOOTER_SIZE
    requires !fit ==> slots.None? || slots.value.read > |stream| - FOOTER_SIZE
    requires stream[..FOOTER_SIZE] == stream[|stream| - FOOTER_SIZE..]
    ensures ParseStream(stream) == if fit then Some([FooterItem(f), HeaderItem(h), item] + items) else None
  {
    hide ParseHeaders, ParseTable, FirstIndex, LastSector;
    FooterLast(stream, slots);
    assert [FooterItem(f), HeaderItem(h)] + ([item] + items) == [FooterItem(f), HeaderItem(h), item] + items;
  }

  /** The slots of a VHD parse from the end of the table, if and only if they fit. */
  lemma VhdSlotsParse(v: Vhd, stream: Buffer)
    requires Wellformed(v)
    requires At(stream, FOOTER_SIZE + HEADER_SIZE + BatSize(v.header.maxTableEntries), Joined(Slots(v)))
    requires |stream|
      == FOOTER_SIZE + HEADER_SIZE + BatSize(v.header.maxTableEntries) + |Joined(Slots(v))| + FOOTER_SIZE
    ensures |v.header.locators| <= |v.locatorData|
    ensures forall id | id in v.blocks :: |v.blocks[id]| == SECTOR * FullBlockSectors(v.header)
    ensures var start := FOOTER_SIZE + HEADER_SIZE + BatSize(v.header.maxTableEntries);
      SlotsDone(v, stream, ParseIndex(stream, StreamedHeader(v.header), start, Entries(Slots(v))))
  {
    hide Wellformed, Slots, Joined, Contiguous, AllFit, Items, BatSize, ParseIndex, StreamedHeader, Readable,
      LocatorItems, BlockItems, At, Entries, BlockSlots;
    var start := FOOTER_SIZE + HEADER_SIZE + BatSize(v.header.maxTableEntries);
    SizesOf(v);
    SlotsBytes(v);
    ReadableFits(v);
    assert SECTOR * LocatorSector(v.header, 0) == start;
    SlotsParse(stream, StreamedHeader(v.header), start, Slots(v), start);
  }

  /** All that the slots give: their items if they all fit, else nothing or too much read. */
  ghost predicate SlotsDone(v: Vhd, stream: Buffer, r: Option<Progress>)
    requires |v.header.locators| <= |v.locatorData|
    requires forall id | id in v.blocks :: |v.blocks[id]| == SECTOR * FullBlockSectors(v.header)
  {
    if AllFit(Slots(v))
    then r.Some? && r.value.items == LocatorItems(v, |v.header.locators|) + BlockItems(v, v.header.maxTableEntries)
         && r.value.read <= |stream| - FOOTER_SIZE
    else r.None? || r.value.read > |stream| - FOOTER_SIZE
  }

  /** What the three parts of the stream parse to. */
  ghost predicate PartsParse(v: Vhd, tail: Buffer, stream: Buffer, h: Header)
    requires |v.header.locators| <= |v.locatorData|
    requires forall i | 0 <= i < v.header.maxTableEntries :: 0 <= Address(v, i) < U32_LIMIT
    requires forall id | id in v.blocks :: |v.blocks[id]| == SECTOR * FullBlockSectors(v.header)
  {
    var start := FOOTER_SIZE + HEADER_SIZE;
    var slots := ParseIndex(stream, h, start + BatSize(h.maxTableEntries), Entries(Slots(v)));
    && FOOTER_SIZE <= |stream| && stream[..FOOTER_SIZE] == stream[|stream| - FOOTER_SIZE..]
    && ParseHeaders(stream) == Some((v.footer, h))
    && ParseTable(stream, h, start, FirstIndex(h))
       == (if BatSize(h.maxTableEntries) >= CHUNK_LIMIT then None
           else Then([TableItem(TableBuffer(v, tail), |BlockItems(v, v.header.maxTableEntries)|)], slots))
    && SlotsDone(v, stream, slots)
  }

  lemma ShapedParses(v: Vhd, tail: Buffer, stream: Buffer)
    requires Wellformed(v) && Addressable(v)
    requires |tail| == BatSize(v.header.maxTableEntries) - 4 * v.header.maxTableEntries
    requires |v.header.locators| <= |v.locatorData| && ValidHeader(StreamedHeader(v.header))
    requires forall i | 0 <= i < v.header.maxTableEntries :: 0 <= Address(v, i) < U32_LIMIT
    requires forall id | id in v.blocks :: |v.blocks[id]| == SECTOR * FullBlockSectors(v.header)
    requires Shaped(stream, v, tail)
    ensures PartsParse(v, tail, stream, StreamedHeader(v.header))
  {
    hide Wellformed, Addressable, Readable, AllFit, TableBuffer, PackFooter, PackHeader, Joined, Slots, BatSize,
      ParseTable, ParseIndex, Items, LocatorItems, BlockItems, Entries, Address, BlockSlots, FirstIndex, ParseHeaders,
      At, Then, StreamedHeader, ValidHeader;
    ReadableFits(v);
    HeadersParse(v, stream);
    TableParses(v, tail, stream);
    VhdSlotsParse(v, stream);
  }

  /** The parser accepts the stream of a VHD if and only if the VHD is readable, and gives it back. */
  lemma StreamParses(v: Vhd, tail: Buffer)
    requires Wellformed(v) && Addressable(v)
    requires |tail| == BatSize(v.header.maxTableEntries) - 4 * v.header.maxTableEntries
    ensures forall i | 0 <= i < v.header.maxTableEntries :: 0 <= Address(v, i) < U32_LIMIT
    ensures ParseStream(StreamOf(v, tail)) == if Readable(v) then Some(ItemsOf(v, tail)) else None
  {
    hide *;
    SizesOf(v);
    StreamFacts(v, tail);
    ShapedParses(v, tail, StreamOf(v, tail));
    ReadableFits(v);
    Conclude(v, tail, StreamOf(v, tail), StreamedHeader(v.header));
  }

  lemma Conclude(v: Vhd, tail: Buffer, stream: Buffer, h: Header)
    requires |v.header.locators| <= |v.locatorData| && h == StreamedHeader(v.header)
    requires forall i | 0 <= i < v.header.maxTableEntries :: 0 <= Address(v, i) < U32_LIMIT
    requires forall id | id in v.blocks :: |v.blocks[id]| == SECTOR * FullBlockSectors(v.header)
    requires PartsParse(v, tail, stream, h)
    requires Readable(v) <==> AllFit(Slots(v)) && BatSize(h.maxTableEntries) < CHUNK_LIMIT
    ensures ParseStream(stream) == if Readable(v) then Some(ItemsOf(v, tail)) else None
  {
    hide Readable, AllFit, TableBuffer, Slots, BatSize, ParseTable, ParseIndex, LocatorItems, BlockItems, Entries,
      Address, BlockSlots, FirstIndex, ParseHeaders, ParseStream, Then, StreamedHeader;
    if BatSize(h.maxTableEntries) < CHUNK_LIMIT {
      Assemble(stream, v.footer, h, TableItem(TableBuffer(v, tail), |BlockItems(v, h.maxTableEntries)|),
               ParseIndex(stream, h, FOOTER_SIZE + HEADER_SIZE + BatSize(h.maxTableEntries), Entries(Slots(v))),
               AllFit(Slots(v)), LocatorItems(v, |v.header.locators|) + BlockItems(v, h.maxTableEntries));
    } else {
      LongTable(stream, v.footer, h);
    }
  }

  lemma LongTable(stream: Buffer, f: Footer, h: Header)
    requires ParseHeaders(stream) == Some((f, h))
    requires ParseTable(stream, h, FOOTER_SIZE + HEADER_SIZE, FirstIndex(h)) == None
    ensures ParseStream(stream) == None
  {
  }

  // ----- what is given back ---------------------------------------------------------------------------

  /** The header is the VHD's, but for the places in the file. */
  ghost predicate SameHeader(h: Header, own: Header) {
    && h.(tableOffset := own.tableOffset, locators := own.locators) == own && h.tableOffset == 1536
    && |h.locators| == |own.locators|
    && forall i | 0 <= i < |own.locators| ::
         h.locators[i].(platformDataOffset := own.locators[i].platformDataOffset) == own.locators[i]
  }

  /** A block, whole. */
  ghost predicate GivesBlock(item: Item, v: Vhd, id: nat) {
    && id in v.blocks && item.BlockItem? && item.id == id && item.bitmap + item.data == v.blocks[id]
    && |item.data| == v.header.blockSize
  }

  /** The data of a used parent locator, as long as the header says, with zeros where there is none. */
  ghost predicate GivesLocator(item: Item, v: Vhd, i: nat)
    requires |v.header.locators| <= |v.locatorData|
  {
    && i < |v.header.locators| && v.header.locators[i].platformDataSpace > 0 && item.LocatorItem? && item.id == i
    && |item.buffer| == v.header.locators[i].platformDataLength
    && forall k | 0 <= k < |item.buffer| ::
         item.buffer[k] == if k < |v.locatorData[i]| then v.locatorData[i][k] else 0
  }

  /** The used parent locators below `n`, each once and in order. */
  ghost predicate GivesLocators(items: seq<Item>, v: Vhd, n: nat)
    requires |v.header.locators| <= |v.locatorData|
  {
    && (forall k | 0 <= k < |items| ::
          items[k].LocatorItem? && items[k].id < n && GivesLocator(items[k], v, items[k].id))
    && (forall j, k | 0 <= j < k < |items| :: items[j].id < items[k].id)
    && (forall i: nat | i < n <= |v.header.locators| && v.header.locators[i].platformDataSpace > 0 ::
          exists k :: 0 <= k < |items| && GivesLocator(items[k], v, i))
  }

  /** The blocks below `n`, each once and in order. */
  ghost predicate GivesBlocks(items: seq<Item>, v: Vhd, n: nat) {
    && (forall k | 0 <= k < |items| :: items[k].BlockItem? && items[k].id < n && GivesBlock(items[k], v, items[k].id))
    && (forall j, k | 0 <= j < k < |items| :: items[j].id < items[k].id)
    && (forall id: nat | id < n && id in v.blocks :: exists k :: 0 <= k < |items| && GivesBlock(items[k], v, id))
  }

  lemma {:induction false} LocatorsGiven(v: Vhd, n: nat)
    requires n <= |v.header.locators| <= |v.locatorData|
    ensures GivesLocators(LocatorItems(v, n), v, n)
  {
    hide LocatorItems, GivesLocators;
    if n > 0 {
      LocatorsGiven(v, n - 1);
      OneLocator(v, n - 1);
      OneMoreLocator(v, LocatorItems(v, n - 1), LocatorItems(v, n), n - 1);
    } else {
      NoLocators(v);
    }
  }

  lemma NoLocators(v: Vhd)
    requires |v.header.locators| <= |v.locatorData|
    ensures GivesLocators(LocatorItems(v, 0), v, 0)
  {
  }

  lemma OneMoreLocator(v: Vhd, before: seq<Item>, items: seq<Item>, i: nat)
    requires i < |v.header.locators| <= |v.locatorData| && GivesLocators(before, v, i)
    requires if v.header.locators[i].platformDataSpace == 0 then items == before
      else |items| == |before| + 1 && items[..|before|] == before && GivesLocator(items[|before|], v, i)
           && items[|before|].LocatorItem? && items[|before|].id == i
    ensures GivesLocators(items, v, i + 1)
  {
    hide GivesLocator;
    assert forall k | 0 <= k < |before| :: items[k] == before[k];
    forall l: nat | l < i + 1 && v.header.locators[l].platformDataSpace > 0
      ensures exists k :: 0 <= k < |items| && GivesLocator(items[k], v, l)
    {
      if l < i {
        var k :| 0 <= k < |before| && GivesLocator(before[k], v, l);
        assert items[k] == before[k];
      }
    }
  }

  lemma OneLocator(v: Vhd, i: nat)
    requires i < |v.header.locators| <= |v.locatorData|
    ensures var before, items := LocatorItems(v, i), LocatorItems(v, i + 1);
      if v.header.locators[i].platformDataSpace == 0 then items == before
      else |items| == |before| + 1 && items[..|before|] == before && GivesLocator(items[|before|], v, i)
           && items[|before|].LocatorItem? && items[|before|].id == i
  {
  }

  lemma {:induction false} BlocksGiven(v: Vhd, n: nat)
    requires ValidBlockSize(v.header)
    requires forall id | id in v.blocks :: |v.blocks[id]| == SECTOR * FullBlockSectors(v.header)
    ensures GivesBlocks(BlockItems(v, n), v, n)
  {
    hide BlockItems, GivesBlocks, FullBlockSectors;
    if n > 0 {
      BlocksGiven(v, n - 1);
      OneBlock(v, n - 1);
      OneMoreBlock(v, BlockItems(v, n - 1), BlockItems(v, n), n - 1);
    } else {
      NoBlockItems(v);
    }
  }

  lemma NoBlockItems(v: Vhd)
    requires forall id | id in v.blocks :: |v.blocks[id]| == SECTOR * FullBlockSectors(v.header)
    ensures GivesBlocks(BlockItems(v, 0), v, 0)
  {
  }

  lemma OneBlock(v: Vhd, id: nat)
    requires ValidBlockSize(v.header)
    requires forall j | j in v.blocks :: |v.blocks[j]| == SECTOR * FullBlockSectors(v.header)
    ensures var before, items := BlockItems(v, id), BlockItems(v, id + 1);
      if id !in v.blocks then items == before
      else |items| == |before| + 1 && items[..|before|] == before && GivesBlock(items[|before|], v, id)
           && items[|before|].BlockItem? && items[|before|].id == id
  {
    if id in v.blocks {
      WholeBlock(v, id);
    }
  }

  lemma OneMoreBlock(v: Vhd, before: seq<Item>, items: seq<Item>, id: nat)
    requires GivesBlocks(before, v, id)
    requires if id !in v.blocks then items == before
      else |items| == |before| + 1 && items[..|before|] == before && GivesBlock(items[|before|], v, id)
           && items[|before|].BlockItem? && items[|before|].id == id
    ensures GivesBlocks(items, v, id + 1)
  {
    hide GivesBlock;
    assert forall k | 0 <= k < |before| :: items[k] == before[k];
    forall j: nat | j < id + 1 && j in v.blocks ensures exists k :: 0 <= k < |items| && GivesBlock(items[k], v, j) {
      if j < id {
        var k :| 0 <= k < |before| && GivesBlock(before[k], v, j);
        assert items[k] == before[k];
      }
    }
  }

  lemma WholeBlock(v: Vhd, id: nat)
    requires ValidBlockSize(v.header) && id in v.blocks
    requires forall j | j in v.blocks :: |v.blocks[j]| == SECTOR * FullBlockSectors(v.header)
    ensures var items := BlockItems(v, id + 1); items != [] && GivesBlock(items[|items| - 1], v, id)
  {
    var block, bitmapSize := v.blocks[id], SECTOR * SectorsOfBitmap(v.header.blockSize);
    assert block[..bitmapSize] + block[bitmapSize..] == block;
  }

  /** Every block stands in the stream at the sector that its entry in the table names, if it has one. */
  ghost predicate TableLeads(v: Vhd, stream: Buffer, table: Buffer) {
    && 4 * v.header.maxTableEntries <= |table|
    && forall id: nat | id < v.header.maxTableEntries ::
         if id in v.blocks then At(stream, 512 * Word(table, id), v.blocks[id]) else Word(table, id) == 0xFFFF_FFFF
  }

  lemma {:induction false} BlockStands(v: Vhd, id: nat, n: nat)
    requires id < n && id in v.blocks
    requires forall j | j in v.blocks :: |v.blocks[j]| == SECTOR * FullBlockSectors(v.header)
    ensures At(BlockBytes(v, n), SECTOR * (NextSector(v, id) - FirstBlockSector(v.header)), v.blocks[id])
  {
    if id < n - 1 {
      BlockStands(v, id, n - 1);
      NextSectorBound(v, id, n - 1);
    }
  }

  lemma TableIsRight(v: Vhd, tail: Buffer)
    requires Wellformed(v) && Addressable(v)
    requires |tail| == BatSize(v.header.maxTableEntries) - 4 * v.header.maxTableEntries
    requires forall i | 0 <= i < v.header.maxTableEntries :: 0 <= Address(v, i) < U32_LIMIT
    ensures TableLeads(v, StreamOf(v, tail), TableBuffer(v, tail))
  {
    hide Head, BlockBytes, TableBuffer, PackFooter, BatSize, ValidFooter, ValidHeader;
    var stream, head, blocks := StreamOf(v, tail), Head(v, tail), BlockBytes(v, v.header.maxTableEntries);
    forall id: nat | id < v.header.maxTableEntries
      ensures if id in v.blocks then At(stream, 512 * Word(TableBuffer(v, tail), id), v.blocks[id])
        else Word(TableBuffer(v, tail), id) == 0xFFFF_FFFF
    {
      WordRead(v, tail, id);
      if id in v.blocks {
        BlockStands(v, id, v.header.maxTableEntries);
        var at := SECTOR * (NextSector(v, id) - FirstBlockSector(v.header));
        Inside(head, blocks, PackFooter(v.footer), at, v.blocks[id]);
      }
    }
  }

  lemma Inside(head: Buffer, middle: Buffer, end: Buffer, at: nat, part: Buffer)
    requires At(middle, at, part)
    ensures At(head + middle + end, |head| + at, part)
  {
    assert (head + middle + end)[|head| + at..|head| + at + |part|] == middle[at..at + |part|];
  }

  lemma HeaderIsSame(h: Header)
    ensures SameHeader(StreamedHeader(h), h)
  {
  }

  /** Whether a disk is readable, in numbers: a chunk must be shorter than 1 GiB. */
  lemma ReadableWhen(v: Vhd)
    ensures Readable(v) <==>
      && (forall i | 0 <= i < |v.header.locators| && v.header.locators[i].platformDataSpace > 0 ::
            0 < v.header.locators[i].platformDataLength <= 512 * v.header.locators[i].platformDataSpace
            && v.header.locators[i].platformDataLength < 0x4000_0000)
      && (v.blocks != map[] ==> 512 * (v.header.blockSize / 512 + SectorsOfBitmap(v.header.blockSize)) < 0x4000_0000)
      && BatSize(v.header.maxTableEntries) < 0x4000_0000
  {
  }

  /**
   * What the parser gives back, item by item: footer, header but for the places in the file, table, used parent
   * locators in order, blocks in order, each exactly once and whole; and the table leads to every block.
   */
  lemma StreamGivesBack(v: Vhd, tail: Buffer)
    requires Wellformed(v) && Addressable(v) && Readable(v)
    requires |tail| == BatSize(v.header.maxTableEntries) - 4 * v.header.maxTableEntries
    ensures ParseStream(StreamOf(v, tail)).Some? && |v.header.locators| <= |v.locatorData|
    ensures var items := ParseStream(StreamOf(v, tail)).value;
      && |items| >= 3 && items[0] == FooterItem(v.footer)
      && items[1].HeaderItem? && SameHeader(items[1].header, v.header)
      && items[2].TableItem? && TableLeads(v, StreamOf(v, tail), items[2].buffer)
      && exists n :: 3 <= n <= |items| && GivesLocators(items[3..n], v, |v.header.locators|)
           && GivesBlocks(items[n..], v, v.header.maxTableEntries) && items[2].blockCount == |items| - n
  {
    hide ParseStream, TableBuffer, LocatorItems, BlockItems, GivesLocators, GivesBlocks, TableLeads, SameHeader;
    hide Readable, StreamOf, BatSize, Address, Head, ItemsOf;
    SizesOf(v);
    StreamParses(v, tail);
    TableIsRight(v, tail);
    HeaderIsSame(v.header);
    LocatorsGiven(v, |v.header.locators|);
    BlocksGiven(v, v.header.maxTableEntries);
    ItemParts(v, tail);
  }

  lemma ItemParts(v: Vhd, tail: Buffer)
    requires Wellformed(v) && |v.header.locators| <= |v.locatorData|
    requires forall i | 0 <= i < v.header.maxTableEntries :: 0 <= Address(v, i) < U32_LIMIT
    requires forall id | id in v.blocks :: |v.blocks[id]| == SECTOR * FullBlockSectors(v.header)
    ensures var items := ItemsOf(v, tail);
      var locators, blocks := LocatorItems(v, |v.header.locators|), BlockItems(v, v.header.maxTableEntries);
      var n := 3 + |locators|;
      && |items| == n + |blocks| && items[3..n] == locators && items[n..] == blocks
      && items[0] == FooterItem(v.footer) && items[1] == HeaderItem(StreamedHeader(v.header))
      && items[2] == TableItem(TableBuffer(v, tail), |blocks|)
  {
    hide LocatorItems, BlockItems, TableBuffer, StreamedHeader;
  }

  /** What is left of the stream ends with the last footer, unless some of the footer has been read. */
  lemma FooterLast(stream: Buffer, r: Option<Progress>)
    requires |stream| >= FOOTER_SIZE
    ensures r.Some? && r.value.read <= |stream| - FOOTER_SIZE
      ==> LastSector(stream[r.value.read..]) == stream[|stream| - FOOTER_SIZE..]
    ensures r.Some? && |stream| - FOOTER_SIZE < r.value.read <= |stream|
      ==> |LastSector(stream[r.value.read..])| < FOOTER_SIZE
  {
  }
}
