/** Reading and writing bytes of a cluster chain, by whole sectors: a flat array of bytes. */
module FatBytes {
  import opened Options
  import opened Bytes
  import opened FatChain
  import opened FatDevice
  import opened FatFile

  // ----- sectors as bytes ----------------------------------------------------------------------------------

  /** The bytes of `n` sectors. */
  function Size(sectorSize: nat, n: nat): nat { n * sectorSize }

  lemma SizeNext(sectorSize: nat, n: nat)
    ensures Size(sectorSize, n + 1) == Size(sectorSize, n) + sectorSize
    ensures Size(sectorSize, 0) == 0 && Size(sectorSize, 1) == sectorSize
  {
  }

  lemma SizeSum(sectorSize: nat, m: nat, n: nat)
    ensures Size(sectorSize, m + n) == Size(sectorSize, m) + Size(sectorSize, n)
  {
  }

  function Flat(ss: seq<Sector>): Buffer {
    if ss == [] then [] else Flat(ss[..|ss| - 1]) + ss[|ss| - 1]
  }

  lemma {:induction false} FlatSize(ss: seq<Sector>, size: nat)
    requires AllSized(ss, size)
    ensures |Flat(ss)| == Size(size, |ss|)
  {
    if ss != [] {
      FlatSize(ss[..|ss| - 1], size);
      SizeNext(size, |ss| - 1);
    }
    SizeNext(size, 0);
  }

  lemma {:induction false} FlatSum(a: seq<Sector>, b: seq<Sector>)
    ensures Flat(a + b) == Flat(a) + Flat(b)
  {
    if b == [] {
      assert a + b == a;
    } else {
      FlatSum(a, b[..|b| - 1]);
      assert (a + b)[..|a + b| - 1] == a + b[..|b| - 1];
      assert (a + b)[|a + b| - 1] == b[|b| - 1];
    }
  }

  /** A run of sectors is a slice of the bytes. */
  lemma FlatSlice(ss: seq<Sector>, size: nat, from: nat, n: nat)
    requires AllSized(ss, size) && from + n <= |ss|
    ensures Size(size, from) + Size(size, n) <= |Flat(ss)|
    ensures Flat(ss)[Size(size, from)..Size(size, from) + Size(size, n)] == Flat(ss[from..from + n])
  {
    var a, b, c := ss[..from], ss[from..from + n], ss[from + n..];
    assert ss == a + (b + c);
    FlatSum(a, b + c);
    FlatSum(b, c);
    FlatSize(a, size);
    FlatSize(b, size);
    hide Size, Flat;
    Middle(Flat(ss), Flat(a), Flat(b), Flat(c));
  }

  lemma Middle(whole: Buffer, a: Buffer, b: Buffer, c: Buffer)
    requires whole == a + (b + c)
    ensures whole[|a|..|a| + |b|] == b
  {
  }

  lemma FlatOne(ss: seq<Sector>, size: nat, k: nat)
    requires AllSized(ss, size) && k < |ss|
    ensures Size(size, k) + size <= |Flat(ss)| && Flat(ss)[Size(size, k)..Size(size, k) + size] == ss[k]
  {
    FlatSlice(ss, size, k, 1);
    SizeNext(size, 0);
    assert ss[k..k + 1] == [ss[k]];
    var one: seq<Sector> := [ss[k]];
    assert one[..0] == [];
    assert Flat(one) == Flat(one[..0]) + ss[k];
  }

  /** A buffer of whole sectors, sector by sector. */
  function Split(b: Buffer, size: nat, n: nat): (ss: seq<Sector>)
    requires |b| == Size(size, n)
    ensures |ss| == n && AllSized(ss, size)
  {
    if n == 0 then []
    else
      SizeNext(size, n - 1);
      Split(b[..Size(size, n - 1)], size, n - 1) + [b[Size(size, n - 1)..]]
  }

  lemma {:induction false} FlatSplit(b: Buffer, size: nat, n: nat)
    requires |b| == Size(size, n)
    ensures Flat(Split(b, size, n)) == b
  {
    if n > 0 {
      SizeNext(size, n - 1);
      var front, back := b[..Size(size, n - 1)], b[Size(size, n - 1)..];
      FlatSplit(front, size, n - 1);
      assert (Split(front, size, n - 1) + [back])[..n - 1] == Split(front, size, n - 1);
      assert front + back == b;
    }
  }

  // ----- overwriting bytes ----------------------------------------------------------------------------------

  /** `data` is at `p`, perhaps past the end, and every other byte there was is as before. */
  ghost predicate Overwritten(before: Buffer, after: Buffer, p: nat, data: Buffer) {
    && |before| <= |after| && (data != [] ==> p + |data| <= |after|)
    && (forall k | p <= k < p + |data| :: after[k] == data[k - p])
    && (forall k | 0 <= k < |before| && !(p <= k < p + |data|) :: after[k] == before[k])
  }

  lemma OverwrittenNothing(before: Buffer, after: Buffer, p: nat)
    requires before <= after
    ensures Overwritten(before, after, p, [])
  {
  }

  lemma OverwrittenTwice(a: Buffer, b: Buffer, c: Buffer, p: nat, first: Buffer, second: Buffer)
    requires Overwritten(a, b, p, first) && Overwritten(b, c, p + |first|, second)
    ensures Overwritten(a, c, p, first + second)
  {
    forall k | p <= k < p + |first + second| ensures k < |c| && c[k] == (first + second)[k - p] {
      if k < p + |first| {
        assert b[k] == first[k - p];
      }
    }
  }

  /** Every byte is as it was, or the one to be written there; what is new is anything. */
  ghost predicate PartlyOverwritten(before: Buffer, after: Buffer, p: nat, data: Buffer) {
    && |before| <= |after|
    && forall k | 0 <= k < |before| :: after[k] == before[k] || (p <= k < p + |data| && after[k] == data[k - p])
  }

  lemma SectorsPartlyOverwrite(before: seq<Sector>, after: seq<Sector>, size: nat, at: nat, data: seq<Sector>)
    requires AllSized(before, size) && AllSized(after, size) && AllSized(data, size)
    requires PartlyRewritten(before, after, at, data)
    ensures PartlyOverwritten(Flat(before), Flat(after), Size(size, at), Flat(data))
  {
    hide Size, Flat, AllSized, PartlyRewritten;
    NoShorter(before, after, at, data);
    FlatSize(data, size);
    FlatSize(after, size);
    FlatSize(before, size);
    SizeLeast(size, |before|, |after|);
    var p, flat := Size(size, at), Flat(data);
    forall k | 0 <= k < |Flat(before)|
      ensures Flat(after)[k] == Flat(before)[k] || (p <= k < p + |flat| && Flat(after)[k] == flat[k - p])
    {
      ByteMixed(before, after, size, at, data, k);
    }
  }

  lemma NoShorter(before: seq<Sector>, after: seq<Sector>, at: nat, data: seq<Sector>)
    requires PartlyRewritten(before, after, at, data)
    ensures |before| <= |after|
  {
  }

  lemma ByteMixed(before: seq<Sector>, after: seq<Sector>, size: nat, at: nat, data: seq<Sector>, k: nat)
    requires AllSized(before, size) && AllSized(after, size) && AllSized(data, size)
    requires PartlyRewritten(before, after, at, data)
    requires k < Size(size, |before|) && |before| <= |after|
    ensures k < |Flat(before)| && k < |Flat(after)|
    ensures var p := Size(size, at);
      Flat(after)[k] == Flat(before)[k] || (p <= k < p + |Flat(data)| && Flat(after)[k] == Flat(data)[k - p])
  {
    hide Size, Flat, AllSized, PartlyRewritten;
    var s, o := Coordinates(size, k, |before|);
    SectorByte(before, size, s, o);
    SectorByte(after, size, s, o);
    if after[s] != before[s] {
      SectorMixed(before, after, at, data, s);
      SectorByte(data, size, s - at, o);
      SizeSum(size, at, s - at);
    }
  }

  lemma SectorMixed(before: seq<Sector>, after: seq<Sector>, at: nat, data: seq<Sector>, s: nat)
    requires PartlyRewritten(before, after, at, data) && s < |before|
    ensures |before| <= |after| && (after[s] == before[s] || (at <= s < at + |data| && after[s] == data[s - at]))
  {
  }

  lemma SectorByte(ss: seq<Sector>, size: nat, s: nat, o: nat)
    requires AllSized(ss, size) && s < |ss| && o < size
    ensures Size(size, s) + o < |Flat(ss)| && |ss[s]| == size && Flat(ss)[Size(size, s) + o] == ss[s][o]
  {
    FlatOne(ss, size, s);
    hide Size, Flat;
    assert Flat(ss)[Size(size, s)..Size(size, s) + size][o] == ss[s][o];
  }

  /** Rewriting sectors overwrites their bytes. */
  lemma SectorsOverwrite(before: seq<Sector>, after: seq<Sector>, size: nat, at: nat, data: seq<Sector>)
    requires AllSized(before, size) && AllSized(after, size) && AllSized(data, size)
    requires Rewritten(before, after, at, data)
    ensures Overwritten(Flat(before), Flat(after), Size(size, at), Flat(data))
  {
    hide Size, Flat, AllSized, Rewritten;
    DataSlice(before, after, at, data);
    FlatSlice(after, size, at, |data|);
    FlatSize(data, size);
    FlatSize(after, size);
    FlatSize(before, size);
    SizeLeast(size, |before|, |after|);
    forall k | Size(size, at) <= k < Size(size, at) + |Flat(data)|
      ensures Flat(after)[k] == Flat(data)[k - Size(size, at)]
    {
      assert Flat(after)[Size(size, at)..Size(size, at) + |Flat(data)|][k - Size(size, at)] == Flat(after)[k];
    }
    forall k | 0 <= k < |Flat(before)| && !(Size(size, at) <= k < Size(size, at) + |Flat(data)|)
      ensures Flat(after)[k] == Flat(before)[k]
    {
      ByteKept(before, after, size, at, data, k);
    }
  }

  lemma DataSlice(before: seq<Sector>, after: seq<Sector>, at: nat, data: seq<Sector>)
    requires Rewritten(before, after, at, data)
    ensures |before| <= |after| && at + |data| <= |after| && after[at..at + |data|] == data
  {
  }

  lemma ByteKept(before: seq<Sector>, after: seq<Sector>, size: nat, at: nat, data: seq<Sector>, k: nat)
    requires AllSized(before, size) && AllSized(after, size) && Rewritten(before, after, at, data)
    requires k < Size(size, |before|) && !(Size(size, at) <= k < Size(size, at) + Size(size, |data|))
    ensures k < |Flat(before)| && k < |Flat(after)| && Flat(after)[k] == Flat(before)[k]
  {
    hide Size, Flat;
    var s, o := Coordinates(size, k, |before|);
    OutsideRun(size, s, o, at, |data|);
    FlatOne(before, size, s);
    FlatOne(after, size, s);
    assert before[s][o] == after[s][o];
  }

  lemma SizeLeast(size: nat, m: nat, n: nat)
    ensures m <= n ==> Size(size, m) <= Size(size, n)
  {
    if m <= n {
      assert (n - m) * size >= 0;
    }
  }

  /** The sector and offset of a byte. */
  lemma {:induction false} Coordinates(size: nat, k: nat, n: nat) returns (s: nat, o: nat)
    requires k < Size(size, n)
    ensures s < n && o < size && k == Size(size, s) + o
  {
    assert n > 0 by {
      SizeNext(size, 0);
    }
    SizeNext(size, n - 1);
    if k >= Size(size, n - 1) {
      s, o := n - 1, k - Size(size, n - 1);
    } else {
      s, o := Coordinates(size, k, n - 1);
    }
  }

  /** A byte of a sector outside the run is outside the run's bytes. */
  lemma OutsideRun(size: nat, s: nat, o: nat, at: nat, n: nat)
    requires o < size && !(Size(size, at) <= Size(size, s) + o < Size(size, at) + Size(size, n))
    ensures !(at <= s < at + n)
  {
    SizeSum(size, at, n);
    if at <= s < at + n {
      SizeLeast(size, at, s);
      SizeNext(size, s);
      SizeLeast(size, s + 1, at + n);
    }
  }

  // ----- positions --------------------------------------------------------------------------------------------

  /** posFromOffset: the sector of an offset, and where in it. */
  method Position(size: nat, off: nat) returns (sector: nat, offset: nat)
    requires size > 0
    ensures offset < size && off == Size(size, sector) + offset
  {
    offset := off % size;
    ghost var q := off / size;
    assert off - offset == size * q;
    MultipleOver(q, size);
    sector := (off - offset) / size;
  }

  /** How many whole sectors `length` bytes fill, and what is left. */
  method WholeSectors(size: nat, length: nat) returns (sectors: nat, trailer: nat)
    requires size > 0
    ensures trailer < size && length == Size(size, sectors) + trailer
  {
    sectors, trailer := Position(size, length);
  }

  ghost function BytesOf(f: FileChain): Buffer
    requires f.Sound()
    reads f, f.chain, f.chain.vol, f.io, f.io.device
  {
    Flat(f.Contents())
  }

  lemma FlatByte(ss: seq<Sector>, size: nat, p: nat)
    requires AllSized(ss, size) && size > 0 && p < |Flat(ss)|
    ensures p / size < |ss| && p % size < |ss[p / size]| && Flat(ss)[p] == ss[p / size][p % size]
  {
    hide Flat, AllSized;
    var k, r := p / size, p % size;
    FlatSize(ss, size);
    InFile(size, |ss|, p, k, r);
    IsSized(ss, size, k);
    FlatOne(ss, size, k);
    hide *;
    SubAt(Flat(ss), Size(size, k), size, r);
  }

  lemma InFile(size: nat, n: nat, p: nat, k: nat, r: nat)
    requires size > 0 && k == p / size && r == p % size && p < Size(size, n)
    ensures k < n && p == Size(size, k) + r && r < size
  {
    assert p == k * size + r;
    assert k >= n ==> k * size >= n * size;
  }

  lemma IsSized(ss: seq<Sector>, size: nat, k: nat)
    requires AllSized(ss, size) && k < |ss|
    ensures |ss[k]| == size
  {
  }

  lemma SubAt(b: Buffer, at: nat, n: nat, r: nat)
    requires at + n <= |b| && r < n
    ensures b[at..at + n][r] == b[at + r]
  {
  }

  /**
   * Byte `p` of a file is byte `p % sectorSize` of a sector of the device: the one that is sector
   * `p / sectorSize` of the chain.
   */
  ghost predicate ByteStands(g: Layout, cs: seq<nat>, sectors: seq<Sector>, size: nat, p: nat, b: byte) {
    && size > 0
    && exists sector: Sector ::
         Stands(g, cs, sectors, p / size, sector) && p % size < |sector| && sector[p % size] == b
  }

  /** What reading gives, and what writing leaves, is on the device where the clusters of the chain are. */
  lemma BytesStand(f: FileChain, off: nat, bytes: Buffer)
    requires f.Sound() && IsAt(BytesOf(f), off, bytes)
    ensures forall k | 0 <= k < |bytes| ::
      ByteStands(f.g, f.chain.clusters, f.io.device.sectors, f.io.device.sectorSize, off + k, bytes[k])
  {
    forall k | 0 <= k < |bytes|
      ensures ByteStands(f.g, f.chain.clusters, f.io.device.sectors, f.io.device.sectorSize, off + k, bytes[k])
    {
      assert bytes[k] == BytesOf(f)[off + k];
      ByteOfFile(f, off + k);
    }
  }

  lemma ByteOfFile(f: FileChain, p: nat)
    requires f.Sound() && p < |BytesOf(f)|
    ensures ByteStands(f.g, f.chain.clusters, f.io.device.sectors, f.io.device.sectorSize, p, BytesOf(f)[p])
  {
    hide *;
    ContentsSized(f);
    BytesAre(f);
    var size := f.io.device.sectorSize;
    FlatByte(f.Contents(), size, p);
    f.ContentsAt(p / size);
    ItStands(f.g, f.chain.clusters, f.io.device.sectors, size, p, f.Contents()[p / size]);
  }

  lemma ItStands(g: Layout, cs: seq<nat>, sectors: seq<Sector>, size: nat, p: nat, sector: Sector)
    requires size > 0 && Stands(g, cs, sectors, p / size, sector) && p % size < |sector|
    ensures ByteStands(g, cs, sectors, size, p, sector[p % size])
  {
    hide Stands;
  }

  lemma BytesAre(f: FileChain)
    requires f.Sound()
    ensures BytesOf(f) == Flat(f.Contents())
  {
  }

  lemma ContentsSized(f: FileChain)
    requires f.Sound()
    ensures AllSized(f.Contents(), f.io.device.sectorSize) && f.io.device.sectorSize > 0
    ensures |BytesOf(f)| == Size(f.io.device.sectorSize, |f.Contents()|)
  {
    ListFits(f.g, f.chain.clusters, |f.io.device.sectors|);
    ViewSized(f.io.device.sectors, f.List(), f.io.device.sectorSize);
    FlatSize(f.Contents(), f.io.device.sectorSize);
  }

  lemma ViewSized(sectors: seq<Sector>, list: seq<nat>, size: nat)
    requires ListOnDevice(list, |sectors|) && AllSized(sectors, size)
    ensures AllSized(View(sectors, list), size)
  {
  }

  // ----- reading ----------------------------------------------------------------------------------------------

  /** Whole sectors that were read are a slice of the bytes. */
  lemma ReadSlice(contents: seq<Sector>, size: nat, sector: nat, n: nat)
    requires AllSized(contents, size) && sector + n <= |contents|
    ensures Size(size, sector) + Size(size, n) <= |Flat(contents)|
    ensures Flat(contents[sector..sector + n]) == Flat(contents)[Size(size, sector)..Size(size, sector) + Size(size, n)]
  {
    FlatSlice(contents, size, sector, n);
  }

  /** One sector that was read, or its part from `from` to `to`. */
  lemma ReadPart(contents: seq<Sector>, size: nat, sector: nat, from: nat, to: nat)
    requires AllSized(contents, size) && sector < |contents| && from <= to <= size
    ensures contents[sector..sector + 1] == [contents[sector]] && Size(size, sector) + to <= |Flat(contents)|
    ensures contents[sector][from..to] == Flat(contents)[Size(size, sector) + from..Size(size, sector) + to]
  {
    FlatOne(contents, size, sector);
    SubSlice(Flat(contents), Size(size, sector), Size(size, sector) + size, from, to - from);
  }

  /** A sector that reading finds past the end is past the end of the bytes. */
  lemma PastEnd(contents: seq<Sector>, size: nat, sector: nat, n: nat)
    requires AllSized(contents, size) && sector + n > |contents| && n > 0
    ensures |Flat(contents)| <= Size(size, sector + n - 1)
  {
    FlatSize(contents, size);
    SizeLeast(size, |contents|, sector + n - 1);
  }

  /** `bytes` are the bytes at `off`. */
  ghost predicate IsAt(all: Buffer, off: nat, bytes: Buffer) {
    bytes != [] ==> off + |bytes| <= |all| && bytes == all[off..off + |bytes|]
  }

  lemma IsAtMore(all: Buffer, off: nat, bytes: Buffer, more: Buffer)
    requires IsAt(all, off, bytes) && off + |bytes| + |more| <= |all|
    requires more == all[off + |bytes|..off + |bytes| + |more|]
    ensures IsAt(all, off, bytes + more)
  {
  }

  /** Whole sectors after what has been read. */
  lemma MainRead(contents: seq<Sector>, size: nat, off: nat, bytes: Buffer, sector: nat, n: nat)
    requires AllSized(contents, size) && sector + n <= |contents| && IsAt(Flat(contents), off, bytes)
    requires off + |bytes| == Size(size, sector)
    ensures |Flat(contents[sector..sector + n])| == Size(size, n)
    ensures IsAt(Flat(contents), off, bytes + Flat(contents[sector..sector + n]))
    ensures Size(size, sector) + Size(size, n) == Size(size, sector + n)
  {
    ReadSlice(contents, size, sector, n);
    SizeSum(size, sector, n);
    hide Flat, Size, IsAt, AllSized;
    IsAtMore(Flat(contents), off, bytes, Flat(contents[sector..sector + n]));
  }

  /** The beginning of the next sector after what has been read. */
  lemma TrailerRead(contents: seq<Sector>, size: nat, off: nat, bytes: Buffer, sector: nat, n: nat)
    requires AllSized(contents, size) && sector < |contents| && n <= size
    requires IsAt(Flat(contents), off, bytes) && off + |bytes| == Size(size, sector)
    ensures contents[sector..sector + 1][0] == contents[sector] && |contents[sector]| == size
    ensures IsAt(Flat(contents), off, bytes + contents[sector][..n])
  {
    ReadPart(contents, size, sector, 0, n);
    hide Flat, Size, IsAt;
    IsAtMore(Flat(contents), off, bytes, contents[sector][..n]);
  }

  /** The end of the first sector, or a part of it. */
  lemma PrefaceRead(contents: seq<Sector>, size: nat, off: nat, sector: nat, offset: nat, end: nat)
    requires AllSized(contents, size) && sector < |contents| && offset <= end <= size
    requires off == Size(size, sector) + offset
    ensures contents[sector..sector + 1][0] == contents[sector] && |contents[sector]| == size
    ensures IsAt(Flat(contents), off, contents[sector][offset..end])
  {
    ReadPart(contents, size, sector, offset, end);
  }

  /**
   * The bytes from `off` on, or as many of them as come in the parts that are entirely in the chain:
   * the rest of the first sector, then whole sectors, then the beginning of the last one.
   */
  method ReadFromPosition(f: FileChain, off: nat, length: nat) returns (bytes: Buffer)
    requires f.Valid()
    modifies f.chain, f.chain.vol, f.io`cache
    ensures f.Valid() && f.Contents() == old(f.Contents())
    ensures |bytes| <= length && IsAt(BytesOf(f), off, bytes)
    ensures off + length <= |BytesOf(f)| ==> |bytes| == length
  {
    hide *;
    ValidIsSound(f);
    var size := f.io.device.sectorSize;
    ghost var contents := f.Contents();
    ContentsSized(f);
    BytesAre(f);
    var sector, offset := Position(size, off);
    bytes := [];
    NothingAt(Flat(contents), off);
    if offset != 0 {
      var preface := f.ReadSectors(sector, 1);
      BytesAre(f);
      if preface.None? {
        PastEnd(contents, size, sector, 1);
        return;
      }
      var end := Min(offset + length, size);
      PrefaceRead(contents, size, off, sector, offset, end);
      bytes := preface.value[0][offset..end];
      if offset + length <= size {
        return;
      }
      SizeNext(size, sector);
      sector := sector + 1;
    }
    var sectors, trailer := WholeSectors(size, length - |bytes|);
    bytes := ReadRest(f, off, length, sector, sectors, trailer, bytes);
  }

  lemma NothingAt(all: Buffer, off: nat)
    ensures IsAt(all, off, [])
  {
  }

  /** The whole sectors and the trailer. */
  method ReadRest(f: FileChain, ghost off: nat, length: nat, sector: nat, sectors: nat, trailer: nat, preface: Buffer)
    returns (bytes: Buffer)
    requires f.Valid() && IsAt(BytesOf(f), off, preface)
    requires var size := f.io.device.sectorSize;
      trailer < size && length == |preface| + Size(size, sectors) + trailer && off + |preface| == Size(size, sector)
    modifies f.chain, f.chain.vol, f.io`cache
    ensures f.Valid() && f.Contents() == old(f.Contents())
    ensures |bytes| <= length && IsAt(BytesOf(f), off, bytes)
    ensures off + length <= |BytesOf(f)| ==> |bytes| == length
  {
    hide Flat, FileChain.Valid, FileChain.Contents, IsAt, AllSized, Size;
    bytes := preface;
    var complete := true;
    SizeNext(f.io.device.sectorSize, 0);
    if sectors > 0 {
      complete, bytes := ReadMain(f, off, length, sector, sectors, trailer, preface);
    }
    if complete && (sectors == 0 || trailer > 0) {
      bytes := ReadTrailer(f, off, length, sector + sectors, trailer, bytes);
    }
  }

  method ReadMain(f: FileChain, ghost off: nat, ghost length: nat, sector: nat, sectors: nat, ghost trailer: nat,
                  preface: Buffer)
    returns (complete: bool, bytes: Buffer)
    requires f.Valid() && IsAt(BytesOf(f), off, preface) && sectors > 0
    requires var size := f.io.device.sectorSize;
      length == |preface| + Size(size, sectors) + trailer && off + |preface| == Size(size, sector)
    modifies f.chain, f.chain.vol, f.io`cache
    ensures f.Valid() && f.Contents() == old(f.Contents()) && IsAt(BytesOf(f), off, bytes)
    ensures complete ==> |bytes| == length - trailer && off + |bytes| == Size(f.io.device.sectorSize, sector + sectors)
    ensures !complete ==> bytes == preface && off + length > |BytesOf(f)|
  {
    hide *;
    ValidIsSound(f);
    ghost var contents, size := f.Contents(), f.io.device.sectorSize;
    ContentsSized(f);
    BytesAre(f);
    var main := f.ReadSectors(sector, sectors);
    BytesAre(f);
    if main.None? {
      MainPastEnd(contents, size, sector, sectors, off, length, trailer, preface);
      return false, preface;
    }
    MainRead(contents, size, off, preface, sector, sectors);
    return true, preface + Flat(main.value);
  }

  lemma MainPastEnd(contents: seq<Sector>, size: nat, sector: nat, sectors: nat, off: nat, length: nat, trailer: nat,
                    preface: Buffer)
    requires AllSized(contents, size) && sectors > 0 && sector + sectors > |contents| && size > 0
    requires length == |preface| + Size(size, sectors) + trailer && off + |preface| == Size(size, sector)
    ensures off + length > |Flat(contents)|
  {
    PastEnd(contents, size, sector, sectors);
    SizeSum(size, sector, sectors);
    SizeNext(size, sector + sectors - 1);
    hide Flat, Size, AllSized;
  }

  method ReadTrailer(f: FileChain, ghost off: nat, ghost length: nat, sector: nat, trailer: nat, soFar: Buffer)
    returns (bytes: Buffer)
    requires f.Valid() && IsAt(BytesOf(f), off, soFar)
    requires var size := f.io.device.sectorSize;
      trailer < size && length == |soFar| + trailer && off + |soFar| == Size(size, sector)
    modifies f.chain, f.chain.vol, f.io`cache
    ensures f.Valid() && f.Contents() == old(f.Contents())
    ensures |bytes| <= length && IsAt(BytesOf(f), off, bytes)
    ensures off + length <= |BytesOf(f)| ==> |bytes| == length
  {
    hide *;
    ValidIsSound(f);
    ghost var contents, size := f.Contents(), f.io.device.sectorSize;
    ContentsSized(f);
    BytesAre(f);
    bytes := soFar;
    var last := f.ReadSectors(sector, 1);
    BytesAre(f);
    if last.None? {
      PastEnd(contents, size, sector, 1);
      return;
    }
    TrailerRead(contents, size, off, bytes, sector, trailer);
    bytes := bytes + last.value[0][..trailer];
  }

  // ----- writing ----------------------------------------------------------------------------------------------

  /** How a write found the volume. */
  datatype Start = Start(fat: Buffer, clusters: seq<nat>, sectors: seq<Sector>)

  /** Since then the chain has at most grown, and the device is the same outside the chain. */
  ghost predicate Grew(f: FileChain, start: Start)
    requires f.Sound()
    reads f, f.chain, f.chain.vol, f.io, f.io.device
  {
    f.GrewFrom(start.fat, start.clusters) && OutsideKept(start.sectors, f.io.device.sectors, f.List())
  }

  ghost function Now(f: FileChain): Start
    reads f, f.chain, f.chain.vol, f.io, f.io.device
  {
    Start(f.chain.vol.fat, f.chain.clusters, f.io.device.sectors)
  }

  lemma NothingGrew(f: FileChain)
    requires f.Valid()
    ensures Grew(f, Now(f))
  {
    f.NothingGrew();
    NothingOutside(f.io.device.sectors, f.List());
  }

  lemma GrewMore(f: FileChain, start: Start, fat: Buffer, clusters: seq<nat>, sectors: seq<Sector>)
    requires f.Sound() && f.GrewFrom(fat, clusters) && OutsideKept(sectors, f.io.device.sectors, f.List())
    requires IsChain(f.chain.vol.t, fat, clusters) && Clusters(clusters)
    requires GrownFrom(f.chain.vol.t, start.fat, fat, start.clusters, clusters, f.chain.vol.countofClusters)
    requires OutsideKept(start.sectors, sectors, SectorList(f.g, clusters))
    ensures Grew(f, start)
  {
    var vol := f.chain.vol;
    GrownTwice(vol.t, start.fat, fat, vol.fat, start.clusters, clusters, f.chain.clusters, vol.countofClusters);
    GrownIsLonger(vol.t, fat, vol.fat, clusters, f.chain.clusters, vol.countofClusters);
    OutsideLonger(f.g, start.sectors, sectors, f.io.device.sectors, clusters, f.chain.clusters);
  }

  lemma OutsideLonger(g: Layout, a: seq<Sector>, b: seq<Sector>, c: seq<Sector>, known: seq<nat>, cs: seq<nat>)
    requires known <= cs && Clusters(known) && Clusters(cs)
    requires OutsideKept(a, b, SectorList(g, known)) && OutsideKept(b, c, SectorList(g, cs))
    ensures OutsideKept(a, c, SectorList(g, cs))
  {
    ListGrows(g, cs, |known|);
    assert cs[..|known|] == known;
    var short, long := SectorList(g, known), SectorList(g, cs);
    forall s | s in short ensures s in long {
      var k :| 0 <= k < |short| && short[k] == s;
      assert long[..|short|][k] == long[k];
    }
  }

  /**
   * What a write can use: the sectors the file could have, and the writes that the table and the device
   * will still take.
   */
  datatype Means = Means(room: nat, budget: nat, steps: nat) {
    /** Enough for `n` sectors up to sector `end` of the chain. */
    predicate Suffice(end: nat, n: nat) { budget >= 4 * end && steps >= n }

    /** What is left after `n` sectors. */
    predicate Leave(after: Means, n: nat) { after.room == room && after.budget >= budget && after.steps + n >= steps }
  }

  ghost function MeansOf(f: FileChain): Means
    requires f.Sound()
    reads f, f.chain, f.chain.vol, f.io, f.io.device
  {
    Means(f.Room(), f.Budget(), f.io.device.steps)
  }

  /** A chain that a stop has broken, or a sound one. */
  ghost predicate Ended(f: FileChain, r: Result<()>)
    reads f, f.chain, f.chain.vol, f.io, f.io.device
  {
    f.Sound() && (f.Valid() || (r == Err(Interrupted) && f.chain.Torn()))
  }

  /** Writes sectors; the chain has still only grown since `start`. */
  method WriteSince(f: FileChain, ghost start: Start, sector: nat, data: seq<Sector>) returns (r: Result<()>)
    requires f.Valid() && Grew(f, start) && data != [] && AllSized(data, f.io.device.sectorSize)
    modifies f.chain, f.chain.vol, f.io`cache, f.io.device
    ensures Ended(f, r) && Grew(f, start)
    ensures r.Ok? ==> Overwritten(old(BytesOf(f)), BytesOf(f), Size(f.io.device.sectorSize, sector), Flat(data))
    ensures r.Ok? ==> Rewritten(old(f.Contents()), f.Contents(), sector, data)
    ensures r == Err(NoSpace) ==> old(f.Contents()) <= f.Contents()
    ensures r == Err(Interrupted)
      ==> PartlyOverwritten(old(BytesOf(f)), BytesOf(f), Size(f.io.device.sectorSize, sector), Flat(data))
    ensures r == Err(Interrupted) ==> PartlyRewritten(old(f.Contents()), f.Contents(), sector, data)
    ensures r.Err? ==> r.error == NoSpace || r.error == Interrupted
    ensures r != Err(Interrupted) ==> old(MeansOf(f)).Leave(MeansOf(f), |data|)
    ensures r != Err(Interrupted) ==> (r.Ok? <==> sector + |data| <= old(MeansOf(f)).room)
    ensures old(MeansOf(f)).Suffice(sector + |data|, |data|) ==> r != Err(Interrupted)
  {
    hide *;
    ValidIsSound(f);
    ghost var before, fat, clusters, sectors := f.Contents(), f.chain.vol.fat, f.chain.clusters, f.io.device.sectors;
    ghost var means := MeansOf(f);
    ContentsSized(f);
    BytesAre(f);
    ChainNow(f, start);
    MeansAre(f);
    Sufficient(means, sector + |data|, |data|);
    r := f.WriteSectors(sector, data);
    IsEnded(f, r);
    ContentsSized(f);
    BytesAre(f);
    GrewMore(f, start, fat, clusters, sectors);
    MeansAre(f);
    LeftOver(means, MeansOf(f), |data|);
    if r.Ok? {
      SectorsOverwrite(before, f.Contents(), f.io.device.sectorSize, sector, data);
    } else if r == Err(Interrupted) {
      SectorsPartlyOverwrite(before, f.Contents(), f.io.device.sectorSize, sector, data);
    }
  }

  lemma ValidIsSound(f: FileChain)
    requires f.Valid()
    ensures f.Sound()
  {
  }

  lemma IsEnded(f: FileChain, r: Result<()>)
    requires f.Sound() && (f.Valid() || (r == Err(Interrupted) && f.chain.Torn()))
    ensures Ended(f, r)
  {
  }

  lemma EndedIs(f: FileChain, r: Result<()>)
    requires Ended(f, r)
    ensures f.Sound() && (f.Valid() || (r == Err(Interrupted) && f.chain.Torn()))
  {
  }

  lemma Sufficient(m: Means, end: nat, n: nat)
    ensures m.Suffice(end, n) <==> m.budget >= 4 * end && m.steps >= n
  {
  }

  lemma LeftOver(m: Means, after: Means, n: nat)
    ensures m.Leave(after, n) <==> after.room == m.room && after.budget >= m.budget && after.steps + n >= m.steps
  {
  }

  lemma MeansAre(f: FileChain)
    requires f.Sound()
    ensures MeansOf(f) == Means(f.Room(), f.Budget(), f.io.device.steps)
  {
  }

  lemma ChainNow(f: FileChain, start: Start)
    requires f.Valid() && Grew(f, start)
    ensures IsChain(f.chain.vol.t, f.chain.vol.fat, f.chain.clusters) && Clusters(f.chain.clusters)
    ensures GrownFrom(f.chain.vol.t, start.fat, f.chain.vol.fat, start.clusters, f.chain.clusters,
                      f.chain.vol.countofClusters)
    ensures OutsideKept(start.sectors, f.io.device.sectors, SectorList(f.g, f.chain.clusters))
  {
  }

  /** A sector with `data` at `off`. */
  function Copied(orig: Sector, off: nat, data: Buffer): (r: Sector)
    requires off + |data| <= |orig|
    ensures |r| == |orig|
  {
    orig[..off] + data + orig[off + |data|..]
  }

  lemma OneFlat(sector: Sector)
    ensures var one: seq<Sector> := [sector]; Flat(one) == sector && AllSized(one, |sector|)
  {
    var one: seq<Sector> := [sector];
    assert one[..0] == [] && Flat(one) == Flat(one[..0]) + sector;
  }

  /**
   * Rewriting one sector with some of its bytes changed overwrites these bytes; a sector past the end
   * may hold anything else.
   */
  lemma SectorOverwrites(before: seq<Sector>, after: seq<Sector>, size: nat, sector: nat, orig: Sector, off: nat,
                         data: Buffer)
    requires AllSized(before, size) && AllSized(after, size) && |orig| == size && off + |data| <= size
    requires sector < |before| ==> orig == before[sector]
    requires Rewritten(before, after, sector, [Copied(orig, off, data)])
    ensures Overwritten(Flat(before), Flat(after), Size(size, sector) + off, data)
  {
    hide *;
    OneFlat(Copied(orig, off, data));
    SectorsOverwrite(before, after, size, sector, [Copied(orig, off, data)]);
    FlatSize(before, size);
    if sector < |before| {
      FlatOne(before, size, sector);
      CopiedInside(Flat(before), Flat(after), Size(size, sector), orig, off, data);
    } else {
      SizeLeast(size, |before|, sector);
      CopiedOutside(Flat(before), Flat(after), Size(size, sector), orig, off, data);
    }
  }

  lemma CopiedInside(before: Buffer, after: Buffer, p: nat, orig: Sector, off: nat, data: Buffer)
    requires off + |data| <= |orig| && p + |orig| <= |before| && before[p..p + |orig|] == orig
    requires Overwritten(before, after, p, Copied(orig, off, data))
    ensures Overwritten(before, after, p + off, data)
  {
    forall k | 0 <= k < |before| && !(p + off <= k < p + off + |data|) ensures after[k] == before[k] {
      if p <= k < p + |orig| {
        assert before[p..p + |orig|][k - p] == orig[k - p] == Copied(orig, off, data)[k - p];
      }
    }
  }

  lemma CopiedOutside(before: Buffer, after: Buffer, p: nat, orig: Sector, off: nat, data: Buffer)
    requires off + |data| <= |orig| && |before| <= p
    requires Overwritten(before, after, p, Copied(orig, off, data))
    ensures Overwritten(before, after, p + off, data)
  {
    forall k | p + off <= k < p + off + |data| ensures k < |after| && after[k] == data[k - p - off] {
      assert Copied(orig, off, data)[k - p] == data[k - p - off];
    }
  }

  /** A sector of the chain, or zeros if it is past the end. */
  method ReadOrZeros(f: FileChain, ghost start: Start, sector: nat) returns (orig: Sector)
    requires f.Valid() && Grew(f, start)
    modifies f.chain, f.chain.vol, f.io`cache
    ensures f.Valid() && Grew(f, start) && MeansOf(f) == old(MeansOf(f))
    ensures f.Contents() == old(f.Contents()) && BytesOf(f) == old(BytesOf(f)) && |orig| == f.io.device.sectorSize
    ensures sector < |f.Contents()| ==> orig == f.Contents()[sector]
  {
    ghost var contents := f.Contents();
    ContentsSized(f);
    hide FileChain.Contents, FileChain.Room, FileChain.Budget;
    var found := f.ReadSectors(sector, 1);
    OrigSized(contents, sector, f.io.device.sectorSize);
    orig := if found.Some? then found.value[0] else Zeros(f.io.device.sectorSize);
  }

  /** A read-modify-write of one sector, which is taken as zeros if it is past the end. */
  method ModifySector(f: FileChain, ghost start: Start, sector: nat, off: nat, data: Buffer) returns (r: Result<()>)
    requires f.Valid() && Grew(f, start) && off + |data| <= f.io.device.sectorSize
    modifies f.chain, f.chain.vol, f.io`cache, f.io.device
    ensures Ended(f, r) && Grew(f, start)
    ensures r.Ok? ==> Overwritten(old(BytesOf(f)), BytesOf(f), Size(f.io.device.sectorSize, sector) + off, data)
    ensures r == Err(NoSpace) ==> old(BytesOf(f)) <= BytesOf(f)
    ensures r == Err(Interrupted)
      ==> PartlyOverwritten(old(BytesOf(f)), BytesOf(f), Size(f.io.device.sectorSize, sector) + off, data)
    ensures r.Err? ==> r.error == NoSpace || r.error == Interrupted
    ensures r != Err(Interrupted)
      ==> old(MeansOf(f)).Leave(MeansOf(f), 1) && (r.Ok? <==> sector + 1 <= old(MeansOf(f)).room)
    ensures old(MeansOf(f)).Suffice(sector + 1, 1) ==> r != Err(Interrupted)
  {
    hide *;
    ValidIsSound(f);
    ghost var before, all := f.Contents(), BytesOf(f);
    ContentsSized(f);
    BytesAre(f);
    var orig := ReadOrZeros(f, start, sector);
    var changed := OneSector(orig, off, data, f.io.device.sectorSize);
    r := WriteSince(f, start, sector, changed);
    EndedIs(f, r);
    if r.Ok? {
      SectorWritten(f, before, sector, orig, off, data);
    } else if r == Err(NoSpace) {
      ContentsGrew(f, before);
    } else {
      SectorPartly(f, before, sector, orig, off, data);
    }
  }

  lemma SectorWritten(f: FileChain, before: seq<Sector>, sector: nat, orig: Sector, off: nat, data: Buffer)
    requires f.Sound() && AllSized(before, f.io.device.sectorSize) && off + |data| <= |orig| == f.io.device.sectorSize
    requires sector < |before| ==> orig == before[sector]
    requires Rewritten(before, f.Contents(), sector, [Copied(orig, off, data)])
    ensures Overwritten(Flat(before), BytesOf(f), Size(f.io.device.sectorSize, sector) + off, data)
  {
    hide *;
    ContentsSized(f);
    BytesAre(f);
    SectorOverwrites(before, f.Contents(), f.io.device.sectorSize, sector, orig, off, data);
  }

  /** One sector is written at once: if it is not past the end, either nothing or all of the data is there. */
  lemma SectorPartly(f: FileChain, before: seq<Sector>, sector: nat, orig: Sector, off: nat, data: Buffer)
    requires f.Sound() && AllSized(before, f.io.device.sectorSize) && off + |data| <= |orig| == f.io.device.sectorSize
    requires sector < |before| ==> orig == before[sector]
    requires PartlyRewritten(before, f.Contents(), sector, [Copied(orig, off, data)])
    ensures PartlyOverwritten(Flat(before), BytesOf(f), Size(f.io.device.sectorSize, sector) + off, data)
  {
    hide *;
    ContentsSized(f);
    BytesAre(f);
    var size := f.io.device.sectorSize;
    OneFlat(Copied(orig, off, data));
    SectorsPartlyOverwrite(before, f.Contents(), size, sector, [Copied(orig, off, data)]);
    FlatSize(before, size);
    if sector < |before| {
      FlatOne(before, size, sector);
    } else {
      SizeLeast(size, |before|, sector);
    }
    CopiedPartly(Flat(before), BytesOf(f), Size(size, sector), orig, off, data);
  }

  lemma CopiedPartly(before: Buffer, after: Buffer, p: nat, orig: Sector, off: nat, data: Buffer)
    requires off + |data| <= |orig| && PartlyOverwritten(before, after, p, Copied(orig, off, data))
    requires |before| <= p || (p + |orig| <= |before| && before[p..p + |orig|] == orig)
    ensures PartlyOverwritten(before, after, p + off, data)
  {
    forall k | 0 <= k < |before|
      ensures after[k] == before[k] || (p + off <= k < p + off + |data| && after[k] == data[k - p - off])
    {
      if after[k] != before[k] {
        assert before[p..p + |orig|][k - p] == orig[k - p];
      }
    }
  }

  lemma ContentsGrew(f: FileChain, before: seq<Sector>)
    requires f.Sound() && before <= f.Contents()
    ensures Flat(before) <= BytesOf(f)
  {
    FlatGrows(before, f.Contents());
  }

  method OneSector(orig: Sector, off: nat, data: Buffer, ghost size: nat) returns (changed: seq<Sector>)
    requires off + |data| <= |orig| == size
    ensures changed == [Copied(orig, off, data)] && AllSized(changed, size) && changed != []
  {
    changed := [Copied(orig, off, data)];
  }

  lemma OrigSized(before: seq<Sector>, sector: nat, size: nat)
    requires AllSized(before, size)
    ensures sector < |before| ==> before[sector..sector + 1] == [before[sector]] && |before[sector]| == size
  {
  }

  lemma {:induction false} FlatGrows(a: seq<Sector>, b: seq<Sector>)
    requires a <= b
    ensures Flat(a) <= Flat(b)
  {
    assert b == a + b[|a|..];
    FlatSum(a, b[|a|..]);
  }

  /** The first `n` bytes of `data` have been written at `p`. */
  ghost predicate Part(before: Buffer, after: Buffer, p: nat, data: Buffer, n: nat) {
    n <= |data| && Overwritten(before, after, p, data[..n])
  }

  lemma NoPart(before: Buffer, after: Buffer, p: nat, data: Buffer)
    requires before <= after
    ensures Part(before, after, p, data, 0)
  {
    OverwrittenNothing(before, after, p);
    assert data[..0] == [];
  }

  /** The next part of the data, after what has been written. */
  lemma NextPart(a: Buffer, b: Buffer, c: Buffer, p: nat, data: Buffer, from: nat, to: nat)
    requires from <= to <= |data| && Part(a, b, p, data, from) && Overwritten(b, c, p + from, data[from..to])
    ensures Part(a, c, p, data, to)
  {
    OverwrittenTwice(a, b, c, p, data[..from], data[from..to]);
    assert data[..from] + data[from..to] == data[..to];
  }

  lemma SamePart(a: Buffer, b: Buffer, c: Buffer, p: nat, data: Buffer, n: nat)
    requires Part(a, b, p, data, n) && b <= c
    ensures Part(a, c, p, data, n)
  {
  }

  /** A part of the rest of the data, after what has been written. */
  lemma PartlyMore(a: Buffer, b: Buffer, c: Buffer, p: nat, data: Buffer, from: nat, to: nat)
    requires from <= to <= |data| && Part(a, b, p, data, from) && PartlyOverwritten(b, c, p + from, data[from..to])
    ensures PartlyOverwritten(a, c, p, data)
  {
    assert forall j | 0 <= j < from :: data[..from][j] == data[j];
  }

  /** How many sectors of the chain there must be for a write: up to the one of the last byte, or of `off` itself. */
  function Reach(size: nat, off: nat, length: nat): nat
    requires size > 0
  {
    (off + Max(length, 1) - 1) / size + 1
  }

  /** What each part of a write promises, for `n` sectors up to `end`. */
  ghost predicate Outcome(before: Buffer, after: Buffer, off: nat, data: Buffer, r: Result<()>, done: nat, means: Means,
                          left: Means,
                          end: nat, n: nat) {
    && (r.Err? ==> r.error == NoSpace || r.error == Interrupted)
    && (r != Err(Interrupted)
        ==> Part(before, after, off, data, done) && means.Leave(left, n) && (r.Ok? <==> end <= means.room))
    && (r == Err(Interrupted) ==> PartlyOverwritten(before, after, off, data))
    && (means.Suffice(end, n) ==> r != Err(Interrupted))
  }

  /** One part, and the next one. */
  lemma OutcomeNext(before: Buffer, middle: Buffer, after: Buffer, off: nat, data: Buffer, r0: Result<()>,
                    r: Result<()>,
                    done: nat, next: nat, means: Means, left: Means, rest: Means, end: nat, n: nat, end': nat, n': nat)
    requires Outcome(before, middle, off, data, r0, done, means, left, end, n) && r0.Ok? && end <= end' && n <= n'
    requires Outcome(before, after, off, data, r, next, left, rest, end', n' - n)
    ensures Outcome(before, after, off, data, r, next, means, rest, end', n')
  {
  }

  lemma OutcomeFailed(before: Buffer, after: Buffer, off: nat, data: Buffer, r: Result<()>, done: nat,
                      means: Means, left: Means, end: nat, n: nat, end': nat, n': nat)
    requires Outcome(before, after, off, data, r, done, means, left, end, n) && r.Err? && end <= end' && n <= n'
    ensures Outcome(before, after, off, data, r, done, means, left, end', n')
  {
  }

  lemma DivIs(size: nat, x: nat, q: nat)
    requires size > 0 && Size(size, q) <= x < Size(size, q + 1)
    ensures x / size == q
  {
    var p, r := x / size, x % size;
    assert x == p * size + r;
    if p < q {
      SizeLeast(size, p + 1, q);
    }
    if p > q {
      SizeLeast(size, q + 1, p);
    }
  }

  lemma PositionIs(size: nat, off: nat, sector: nat, offset: nat)
    requires offset < size && off == Size(size, sector) + offset
    ensures off / size == sector
  {
    SizeNext(size, sector);
    hide Size;
    DivIs(size, off, sector);
  }

  lemma ReachForward(size: nat, off: nat, length: nat)
    requires size > 0
    ensures Reach(size, off, length) > off / size
  {
    var x := off + Max(length, 1) - 1;
    var p, q := off / size, x / size;
    assert off == p * size + off % size && x == q * size + x % size;
    if q < p {
      assert (q + 1) * size <= p * size by {
        SizeLeast(size, q + 1, p);
      }
    }
  }

  /** A write inside one sector reaches that sector. */
  lemma PrefaceReach(size: nat, off: nat, length: nat, sector: nat, offset: nat)
    requires offset < size && offset + length <= size && off == Size(size, sector) + offset
    ensures Reach(size, off, length) == sector + 1
  {
    SizeNext(size, sector);
    hide Size;
    DivIs(size, off + Max(length, 1) - 1, sector);
  }

  /** The sectors after the whole ones. */
  function Trailing(sectors: nat, trailer: nat): nat { if sectors == 0 || trailer > 0 then 1 else 0 }

  /** The whole sectors and the trailer reach to their end. */
  lemma RestReach(size: nat, off: nat, length: nat, prefaceLen: nat, sector: nat, sectors: nat, trailer: nat)
    requires trailer < size && off + prefaceLen == Size(size, sector)
    requires length == prefaceLen + Size(size, sectors) + trailer
    requires sectors == 0 && trailer == 0 ==> length == 0
    ensures Reach(size, off, length) == sector + sectors + Trailing(sectors, trailer)
  {
    SizeSum(size, sector, sectors);
    SizeNext(size, sector + sectors);
    SizeNext(size, 0);
    if sectors > 0 {
      SizeNext(size, sector + sectors - 1);
    }
    hide Size;
    DivIs(size, off + Max(length, 1) - 1, sector + sectors + Trailing(sectors, trailer) - 1);
  }

  /**
   * Writes `data` at `off`: exactly these bytes change, and the chain grows to hold them. It succeeds if
   * and only if the file can reach that far. If it cannot, a first part of them, `done` bytes, has been
   * written; if the table or the device stops, some of them, and no other byte has changed.
   */
  method WriteToPosition(f: FileChain, off: nat, data: Buffer) returns (r: Result<()>, ghost done: nat)
    requires f.Valid()
    modifies f.chain, f.chain.vol, f.io`cache, f.io.device
    ensures f.io.device.sectorSize > 0 && Ended(f, r) && Grew(f, old(Now(f)))
    ensures var size := f.io.device.sectorSize;
      var end := Reach(size, off, |data|);
      end > off / size
      && Outcome(old(BytesOf(f)), BytesOf(f), off, data, r, done, old(MeansOf(f)), MeansOf(f), end, end - off / size)
    ensures r.Ok? ==> done == |data|
  {
    hide *;
    ValidIsSound(f);
    ghost var start, before, means := Now(f), BytesOf(f), MeansOf(f);
    NothingGrew(f);
    ContentsSized(f);
    NoPart(before, before, off, data);
    SizeNext(f.io.device.sectorSize, 0);
    var size := f.io.device.sectorSize;
    var sector, offset := Position(size, off);
    PositionIs(size, off, sector, offset);
    ReachForward(size, off, |data|);
    ghost var first, end := sector, Reach(size, off, |data|);
    ghost var middle, left, r0 := before, means, Ok(());
    var prefaceLen := 0;
    if offset != 0 {
      prefaceLen := Min(size - offset, |data|);
      r, done := WritePart(f, start, before, off, data, 0, prefaceLen, sector, offset);
      EndedIs(f, r);
      middle, left, r0 := BytesOf(f), MeansOf(f), r;
      if r.Err? {
        OutcomeFailed(before, middle, off, data, r, done, means, left, sector + 1, 1, end, end - first);
        return;
      }
      if prefaceLen == |data| {
        PrefaceReach(size, off, |data|, sector, offset);
        return;
      }
      IsPart(before, middle, off, data, r, done, means, left, sector + 1, 1);
      SizeNext(size, sector);
      sector := sector + 1;
    }
    var sectors, trailer := WholeSectors(size, |data| - prefaceLen);
    RestReach(size, off, |data|, prefaceLen, sector, sectors, trailer);
    r, done := WriteRest(f, start, before, off, data, sector, sectors, trailer, prefaceLen);
    EndedIs(f, r);
    if offset != 0 {
      OutcomeNext(before, middle, BytesOf(f), off, data, r0, r, prefaceLen, done, means, left, MeansOf(f),
                  first + 1, 1, end, end - first);
    }
  }

  lemma IsPart(before: Buffer, after: Buffer, off: nat, data: Buffer, r: Result<()>, done: nat, means: Means,
               left: Means, end: nat, n: nat)
    requires Outcome(before, after, off, data, r, done, means, left, end, n) && r.Ok?
    ensures Part(before, after, off, data, done)
  {
  }

  /** The bytes from `from` to `to` of the data, all in one sector. */
  method WritePart(f: FileChain, ghost start: Start, ghost before: Buffer, ghost off: nat, data: Buffer, from: nat,
                   to: nat,
                   sector: nat, offset: nat)
    returns (r: Result<()>, ghost done: nat)
    requires f.Valid() && Grew(f, start) && from <= to <= |data| && offset + (to - from) <= f.io.device.sectorSize
    requires Part(before, BytesOf(f), off, data, from) && off + from == Size(f.io.device.sectorSize, sector) + offset
    modifies f.chain, f.chain.vol, f.io`cache, f.io.device
    ensures Ended(f, r) && Grew(f, start) && (r.Ok? ==> done == to)
    ensures Outcome(before, BytesOf(f), off, data, r, done, old(MeansOf(f)), MeansOf(f), sector + 1, 1)
  {
    hide *;
    ValidIsSound(f);
    ghost var middle, means := BytesOf(f), MeansOf(f);
    r := ModifySector(f, start, sector, offset, data[from..to]);
    EndedIs(f, r);
    done := PartDone(before, middle, BytesOf(f), off, data, from, to, r);
    IsOutcome(before, BytesOf(f), off, data, r, done, means, MeansOf(f), sector + 1, 1);
  }

  /** From what one write of the data's bytes `from` to `to` does to what is written of the data. */
  lemma PartDone(before: Buffer, middle: Buffer, after: Buffer, off: nat, data: Buffer, from: nat, to: nat,
                 r: Result<()>)
    returns (done: nat)
    requires from <= to <= |data| && Part(before, middle, off, data, from)
    requires r.Ok? ==> Overwritten(middle, after, off + from, data[from..to])
    requires r == Err(NoSpace) ==> middle <= after
    requires r == Err(Interrupted) ==> PartlyOverwritten(middle, after, off + from, data[from..to])
    ensures r.Ok? ==> done == to
    ensures r.Ok? || r == Err(NoSpace) ==> Part(before, after, off, data, done)
    ensures r == Err(Interrupted) ==> PartlyOverwritten(before, after, off, data)
  {
    hide *;
    done := if r.Ok? then to else from;
    if r.Ok? {
      NextPart(before, middle, after, off, data, from, to);
    } else if r == Err(NoSpace) {
      SamePart(before, middle, after, off, data, from);
    } else if r == Err(Interrupted) {
      PartlyMore(before, middle, after, off, data, from, to);
    }
  }

  lemma IsOutcome(before: Buffer, after: Buffer, off: nat, data: Buffer, r: Result<()>, done: nat, means: Means,
                  left: Means, end: nat, n: nat)
    requires r.Err? ==> r.error == NoSpace || r.error == Interrupted
    requires r.Ok? || r == Err(NoSpace) ==> Part(before, after, off, data, done)
    requires r != Err(Interrupted) ==> means.Leave(left, n) && (r.Ok? <==> end <= means.room)
    requires r == Err(Interrupted) ==> PartlyOverwritten(before, after, off, data)
    requires means.Suffice(end, n) ==> r != Err(Interrupted)
    ensures Outcome(before, after, off, data, r, done, means, left, end, n)
  {
  }

  /** The whole sectors and the trailer. */
  method WriteRest(f: FileChain, ghost start: Start, ghost before: Buffer, ghost off: nat, data: Buffer, sector: nat,
                   sectors: nat,
                   trailer: nat, prefaceLen: nat)
    returns (r: Result<()>, ghost done: nat)
    requires f.Valid() && Grew(f, start) && Part(before, BytesOf(f), off, data, prefaceLen)
    requires trailer < f.io.device.sectorSize && |data| == prefaceLen + Size(f.io.device.sectorSize, sectors) + trailer
    requires off + prefaceLen == Size(f.io.device.sectorSize, sector)
    modifies f.chain, f.chain.vol, f.io`cache, f.io.device
    ensures Ended(f, r) && Grew(f, start) && (r.Ok? ==> done == |data|)
    ensures Outcome(before, BytesOf(f), off, data, r, done, old(MeansOf(f)), MeansOf(f),
                    sector + sectors + Trailing(sectors, trailer), sectors + Trailing(sectors, trailer))
  {
    hide *;
    ValidIsSound(f);
    TrailingIs(sectors, trailer);
    SizeNext(f.io.device.sectorSize, 0);
    SizeSum(f.io.device.sectorSize, sector, sectors);
    ghost var means := MeansOf(f);
    ghost var middle, left, r0 := BytesOf(f), means, Ok(());
    if sectors > 0 {
      r, done := WriteMain(f, start, before, off, data, prefaceLen, |data| - trailer, sector, sectors);
      EndedIs(f, r);
      middle, left, r0 := BytesOf(f), MeansOf(f), r;
      if r.Err? {
        OutcomeFailed(before, middle, off, data, r, done, means, left, sector + sectors, sectors,
                      sector + sectors + Trailing(sectors, trailer), sectors + Trailing(sectors, trailer));
        return;
      }
      if trailer == 0 {
        return;
      }
      IsPart(before, middle, off, data, r, done, means, left, sector + sectors, sectors);
    }
    r, done := WritePart(f, start, before, off, data, |data| - trailer, |data|, sector + sectors, 0);
    EndedIs(f, r);
    if sectors > 0 {
      OutcomeNext(before, middle, BytesOf(f), off, data, r0, r, |data| - trailer, done, means, left, MeansOf(f),
                  sector + sectors, sectors, sector + sectors + 1, sectors + 1);
    }
  }

  lemma TrailingIs(sectors: nat, trailer: nat)
    ensures Trailing(sectors, trailer) == if sectors == 0 || trailer > 0 then 1 else 0
  {
  }

  /** The whole sectors, all at once. */
  method WriteMain(f: FileChain, ghost start: Start, ghost before: Buffer, ghost off: nat, data: Buffer, from: nat,
                   to: nat,
                   sector: nat, sectors: nat)
    returns (r: Result<()>, ghost done: nat)
    requires f.Valid() && Grew(f, start) && sectors > 0 && from <= to <= |data|
    requires to - from == Size(f.io.device.sectorSize, sectors)
    requires Part(before, BytesOf(f), off, data, from) && off + from == Size(f.io.device.sectorSize, sector)
    modifies f.chain, f.chain.vol, f.io`cache, f.io.device
    ensures Ended(f, r) && Grew(f, start) && (r.Ok? ==> done == to)
    ensures Outcome(before, BytesOf(f), off, data, r, done, old(MeansOf(f)), MeansOf(f), sector + sectors, sectors)
  {
    hide *;
    ValidIsSound(f);
    ghost var middle, contents, means := BytesOf(f), f.Contents(), MeansOf(f);
    BytesAre(f);
    FlatSplit(data[from..to], f.io.device.sectorSize, sectors);
    r := WriteSince(f, start, sector, Split(data[from..to], f.io.device.sectorSize, sectors));
    EndedIs(f, r);
    if r == Err(NoSpace) {
      ContentsGrew(f, contents);
    }
    done := PartDone(before, middle, BytesOf(f), off, data, from, to, r);
    IsOutcome(before, BytesOf(f), off, data, r, done, means, MeansOf(f), sector + sectors, sectors);
  }

  /**
   * What has been written is what is read back; and it is written, unless the file cannot reach that far
   * or the volume stops.
   */
  method WriteThenRead(f: FileChain, off: nat, data: Buffer) returns (written: bool, back: Buffer)
    requires f.Valid()
    modifies f.chain, f.chain.vol, f.io`cache, f.io.device
    ensures written ==> back == data
    ensures f.io.device.sectorSize > 0
    ensures var size := f.io.device.sectorSize;
      var end := Reach(size, off, |data|);
      end > off / size
      && (old(MeansOf(f)).Suffice(end, end - off / size) ==> (written <==> end <= old(MeansOf(f)).room))
  {
    hide *;
    ValidIsSound(f);
    ghost var before, means := BytesOf(f), MeansOf(f);
    var r, done := WriteToPosition(f, off, data);
    EndedIs(f, r);
    ghost var size := f.io.device.sectorSize;
    ghost var all, end := BytesOf(f), Reach(size, off, |data|);
    OutcomeIs(before, all, off, data, r, done, means, MeansOf(f), end, end - off / size);
    if r.Err? {
      return false, [];
    }
    BytesAre(f);
    back := ReadFromPosition(f, off, |data|);
    ValidIsSound(f);
    BytesAre(f);
    IsWritten(before, all, off, data, done, back);
    return true, back;
  }

  lemma OutcomeIs(before: Buffer, after: Buffer, off: nat, data: Buffer, r: Result<()>, done: nat, means: Means,
                  left: Means, end: nat, n: nat)
    requires Outcome(before, after, off, data, r, done, means, left, end, n)
    ensures r.Ok? ==> Part(before, after, off, data, done)
    ensures means.Suffice(end, n) ==> (r.Ok? <==> end <= means.room)
  {
  }

  lemma IsWritten(before: Buffer, all: Buffer, off: nat, data: Buffer, done: nat, back: Buffer)
    requires Part(before, all, off, data, done) && done == |data| && |back| <= |data| && IsAt(all, off, back)
    requires off + |data| <= |all| ==> |back| == |data|
    ensures back == data
  {
    assert data[..done] == data;
  }
}
