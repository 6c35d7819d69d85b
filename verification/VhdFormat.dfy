/**
 * The fixed parts of a VHD file: footer, dynamic disk header, their checksums, and the sizes
 * derived from them ("Virtual Hard Disk Image Format Specification", sections "Hard Disk Footer
 * Format" and "Dynamic Disk Header Format").
 *
 * Fields that every accepted structure holds at one fixed value (cookies, versions, the footer's
 * data offset, the header's undefined data offset) are constants of the packing and not fields
 * of the records.
 */
module VhdFormat {
  import opened Options
  import opened Bytes

  const SECTOR: int := 512
  const FOOTER_SIZE: int := 512
  const HEADER_SIZE: int := 1024
  const BLOCK_UNUSED: int := 0xFFFF_FFFF
  const PARENT_LOCATOR_ENTRIES: int := 8
  const PLATFORM_NONE: int := 0
  const DYNAMIC: int := 3
  const DIFFERENCING: int := 4
  const VERSION: int := 0x1_0000
  const FOOTER_COOKIE: Buffer := [0x63, 0x6F, 0x6E, 0x65, 0x63, 0x74, 0x69, 0x78]
  const HEADER_COOKIE: Buffer := [0x63, 0x78, 0x73, 0x70, 0x61, 0x72, 0x73, 0x65]
  const UNDEFINED_OFFSET: Buffer := [0xFF, 0xFF, 0xFF, 0xFF, 0xFF, 0xFF, 0xFF, 0xFF]

  datatype Footer = Footer(
    features: nat,
    timestamp: nat,
    creator: Buffer,
    originalSize: nat,
    currentSize: nat,
    diskGeometry: Buffer,
    diskType: nat,
    uuid: Buffer,
    reserved: Buffer
  )

  datatype Locator = Locator(
    platformCode: nat,
    platformDataSpace: nat,
    platformDataLength: nat,
    reserved: nat,
    platformDataOffset: nat
  )

  datatype Header = Header(
    tableOffset: nat,
    maxTableEntries: nat,
    blockSize: nat,
    parent: Buffer, // uuid, timestamp, reserved word and unicode name of the parent
    locators: seq<Locator>,
    reserved: Buffer
  )

  // ----- checksums ----------------------------------------------------------------

  function Checksum(pre: Buffer, post: Buffer): (c: nat)
    requires |pre| + |post| <= HEADER_SIZE
    ensures c < U32_LIMIT
  {
    U32_LIMIT - 1 - (Sum(pre) + Sum(post))
  }

  function Seal(pre: Buffer, post: Buffer): (b: Buffer)
    requires |pre| + |post| <= HEADER_SIZE
    ensures |b| == |pre| + 4 + |post|
  {
    pre + (U32(Checksum(pre, post)) + post)
  }

  predicate Sealed(b: Buffer, at: nat)
    requires at + 4 <= |b| <= HEADER_SIZE
  {
    b[at..at + 4] == U32(Checksum(b[..at], b[at + 4..]))
  }

  lemma SealIsSealed(pre: Buffer, post: Buffer)
    requires |pre| + |post| <= HEADER_SIZE - 4
    ensures var b := Seal(pre, post);
      Sealed(b, |pre|) && b[..|pre|] == pre && b[|pre| + 4..] == post
  {
    var b, c := Seal(pre, post), U32(Checksum(pre, post));
    assert b[..|pre|] == pre;
    assert b[|pre|..] == c + post;
    assert b[|pre| + 4..] == post;
    assert b[|pre|..|pre| + 4] == c;
  }

  // ----- footer ---------------------------------------------------------------------

  /** What checkFooter demands, and the width of every field. */
  predicate ValidFooter(f: Footer) {
    && f.features < U32_LIMIT && f.timestamp < U32_LIMIT && |f.creator| == 12
    && f.originalSize <= f.currentSize < U32_LIMIT * U32_LIMIT
    && |f.diskGeometry| == 4 && |f.uuid| == 16 && |f.reserved| == 428
    && (f.diskType == DIFFERENCING || f.diskType == DYNAMIC)
  }

  function FooterHead(f: Footer): (b: Buffer)
    requires ValidFooter(f)
    ensures |b| == 64
  {
    FOOTER_COOKIE + (U32(f.features) + (U32(VERSION) + (U64(FOOTER_SIZE) + (U32(f.timestamp) + (f.creator
      + (U64(f.originalSize) + (U64(f.currentSize) + (f.diskGeometry + U32(f.diskType)))))))))
  }

  function PackFooter(f: Footer): (b: Buffer)
    requires ValidFooter(f)
    ensures |b| == FOOTER_SIZE
  {
    Seal(FooterHead(f), f.uuid + f.reserved)
  }

  /** Where each field of a footer is, as the format's table of the hard disk footer has it. */
  lemma FooterPlaces(f: Footer)
    requires ValidFooter(f)
    ensures var b := PackFooter(f);
      && b[..8] == [0x63, 0x6F, 0x6E, 0x65, 0x63, 0x74, 0x69, 0x78] && b[8..12] == U32(f.features)
      && b[12..16] == [0, 1, 0, 0] && b[16..24] == [0, 0, 0, 0, 0, 0, 2, 0] && b[24..28] == U32(f.timestamp)
      && b[28..40] == f.creator && b[40..48] == U64(f.originalSize) && b[48..56] == U64(f.currentSize)
      && b[56..60] == f.diskGeometry && b[60..64] == U32(f.diskType) && b[68..84] == f.uuid && b[84..] == f.reserved
  {
    var p, t, b := FooterHead(f), f.uuid + f.reserved, PackFooter(f);
    FooterHeadFields(f);
    assert U32(VERSION) == [0, 1, 0, 0] && U64(FOOTER_SIZE) == [0, 0, 0, 0, 0, 0, 2, 0];
    forall i, j | 0 <= i <= j <= 64 ensures b[i..j] == p[i..j] {
      assert b[i..j] == b[..64][i..j];
    }
    assert b[68..] == t;
  }

  /** A footer is accepted if and only if all the checks pass. */
  lemma FooterAccepted(b: Buffer)
    requires |b| == FOOTER_SIZE
    ensures UnpackFooter(b).Some? <==>
      && b[..8] == [0x63, 0x6F, 0x6E, 0x65, 0x63, 0x74, 0x69, 0x78]
      && FromU32(b[12..16]) == 0x1_0000 && FromU64(b[16..24]) == 512
      && FromU32(b[64..68]) == 0xFFFF_FFFF - Sum(b[..64]) - Sum(b[68..])
      && FromU64(b[40..48]) <= FromU64(b[48..56]) && (FromU32(b[60..64]) == 3 || FromU32(b[60..64]) == 4)
  {
    SealedWhen(b, 64);
    hide Sealed, FromU32, FromU64, Sum;
  }

  lemma SealedWhen(b: Buffer, at: nat)
    requires at + 4 <= |b| <= HEADER_SIZE
    ensures Sealed(b, at) <==> FromU32(b[at..at + 4]) == 0xFFFF_FFFF - Sum(b[..at]) - Sum(b[at + 4..])
  {
    var c := Checksum(b[..at], b[at + 4..]);
    U32RoundTrip(c);
    SameWord(b[at..at + 4], U32(c));
    hide U32, FromU32, Sum;
  }

  lemma SameWord(a: Buffer, b: Buffer)
    requires |a| == |b| == 4
    ensures a == b <==> FromU32(a) == FromU32(b)
  {
    if FromU32(a) == FromU32(b) {
      assert a[0] == b[0] && a[1] == b[1] && a[2] == b[2] && a[3] == b[3];
    }
  }

  /** unpackFooter: checksum first, then the field checks; None stands for a failed assertion. */
  function UnpackFooter(b: Buffer): (r: Option<Footer>)
    requires |b| == FOOTER_SIZE
    ensures r.Some? ==> ValidFooter(r.value)
  {
    if Sealed(b, 64) then ParseFooter(b) else None
  }

  /** The fields and checkFooter, without the checksum. */
  function ParseFooter(b: Buffer): (r: Option<Footer>)
    requires |b| == FOOTER_SIZE
    ensures r.Some? ==> ValidFooter(r.value)
  {
    var f := Footer(
        FromU32(b[8..12]), FromU32(b[24..28]), b[28..40], FromU64(b[40..48]), FromU64(b[48..56]),
        b[56..60], FromU32(b[60..64]), b[68..84], b[84..]);
    if b[..8] == FOOTER_COOKIE && FromU32(b[12..16]) == VERSION && FromU64(b[16..24]) == FOOTER_SIZE && ValidFooter(f)
    then Some(f) else None
  }

  /** Reading a part of a concatenation. */
  lemma Slices(a: Buffer, b: Buffer)
    ensures (a + b)[..|a|] == a && (a + b)[|a|..] == b
  {
  }

  lemma Chop(b: Buffer, part: Buffer, rest: Buffer, base: Buffer, at: nat)
    requires at <= |base| && base[at..] == b && b == part + rest
    ensures at + |part| <= |base| && base[at..at + |part|] == part && base[at + |part|..] == rest
  {
    Slices(part, rest);
    assert base[at..at + |part|] == b[..|part|];
    assert base[at + |part|..] == b[|part|..];
  }

  lemma FooterRoundTrip(f: Footer)
    requires ValidFooter(f)
    ensures UnpackFooter(PackFooter(f)) == Some(f)
  {
    var h, b := FooterHead(f), PackFooter(f);
    SealIsSealed(h, f.uuid + f.reserved);
    FooterHeadFields(f);
    Slices(f.uuid, f.reserved);
    assert b[68..84] == b[68..][..16] && b[84..] == b[68..][16..];
    forall i, j | 0 <= i <= j <= 64 ensures b[i..j] == h[i..j] {
      assert b[i..j] == b[..64][i..j];
    }
    U32RoundTrip(f.features);
    U32RoundTrip(VERSION);
    U64RoundTrip(FOOTER_SIZE);
    U32RoundTrip(f.timestamp);
    U64RoundTrip(f.originalSize);
    U64RoundTrip(f.currentSize);
    U32RoundTrip(f.diskType);
  }

  lemma FooterHeadFields(f: Footer)
    requires ValidFooter(f)
    ensures var h := FooterHead(f);
      && h[..8] == FOOTER_COOKIE && h[8..12] == U32(f.features) && h[12..16] == U32(VERSION)
      && h[16..24] == U64(FOOTER_SIZE) && h[24..28] == U32(f.timestamp) && h[28..40] == f.creator
      && h[40..48] == U64(f.originalSize) && h[48..56] == U64(f.currentSize)
      && h[56..60] == f.diskGeometry && h[60..64] == U32(f.diskType)
  {
    var h := FooterHead(f);
    var r9 := U32(f.diskType);
    var r8 := f.diskGeometry + r9;
    var r7 := U64(f.currentSize) + r8;
    var r6 := U64(f.originalSize) + r7;
    var r5 := f.creator + r6;
    var r4 := U32(f.timestamp) + r5;
    var r3 := U64(FOOTER_SIZE) + r4;
    var r2 := U32(VERSION) + r3;
    var r1 := U32(f.features) + r2;
    Chop(h, FOOTER_COOKIE, r1, h, 0);
    Chop(r1, U32(f.features), r2, h, 8);
    Chop(r2, U32(VERSION), r3, h, 12);
    Chop(r3, U64(FOOTER_SIZE), r4, h, 16);
    Chop(r4, U32(f.timestamp), r5, h, 24);
    Chop(r5, f.creator, r6, h, 28);
    Chop(r6, U64(f.originalSize), r7, h, 40);
    Chop(r7, U64(f.currentSize), r8, h, 48);
    Chop(r8, f.diskGeometry, r9, h, 56);
  }

  // ----- header ---------------------------------------------------------------------

  predicate ValidLocator(l: Locator) {
    && l.platformCode < U32_LIMIT && l.platformDataSpace < U32_LIMIT && l.platformDataLength < U32_LIMIT
    && l.reserved < U32_LIMIT && l.platformDataOffset < U32_LIMIT * U32_LIMIT
  }

  predicate IsPowerOfTwo(n: nat) {
    n == 1 || (n > 1 && n % 2 == 0 && IsPowerOfTwo(n / 2))
  }

  lemma {:induction false} PowerDividesPower(n: nat, p: nat) returns (q: nat)
    requires IsPowerOfTwo(n) && IsPowerOfTwo(p) && p <= n
    ensures n == p * q
  {
    if p == 1 {
      q := n;
    } else {
      q := PowerDividesPower(n / 2, p / 2);
      assert p * q == 2 * (p / 2 * q);
    }
  }

  lemma {:induction false} FactorOfPower(a: nat, b: nat, p: nat)
    requires IsPowerOfTwo(p) && a * b == p
    ensures IsPowerOfTwo(a)
  {
    if p == 1 {
      assert a == 1 by {
        assert a > 1 && b > 0 ==> a * b > 1;
      }
    } else if a % 2 == 0 {
      assert a / 2 * b == p / 2;
      FactorOfPower(a / 2, b, p / 2);
      assert a > 0;
    } else {
      OddTimesOdd(a, b);
      assert a * (b / 2) == p / 2;
      FactorOfPower(a, b / 2, p / 2);
    }
  }

  lemma OddTimesOdd(a: nat, b: nat)
    requires a % 2 == 1 && a * b % 2 == 0
    ensures b % 2 == 0
  {
    var m, n := a / 2, b / 2;
    assert b % 2 == 1 ==> a * b == 2 * (2 * m * n + m + n) + 1;
  }

  /** Field widths, and the block size test of checkHeader: log2(blockSize / 512) is an integer. */
  predicate ValidHeader(h: Header) {
    && h.tableOffset < U32_LIMIT * U32_LIMIT && h.maxTableEntries < U32_LIMIT && h.blockSize < U32_LIMIT
    && |h.parent| == 536 && |h.locators| == PARENT_LOCATOR_ENTRIES && |h.reserved| == 256
    && (forall i | 0 <= i < |h.locators| :: ValidLocator(h.locators[i]))
    && IsPowerOfTwo(h.blockSize)
  }

  /** The last test of checkHeader: the table is long enough for the disk. */
  predicate FitsDisk(h: Header, f: Footer) {
    h.maxTableEntries * h.blockSize >= f.currentSize
  }

  function PackLocator(l: Locator): (b: Buffer)
    requires ValidLocator(l)
    ensures |b| == 24
  {
    U32(l.platformCode) + (U32(l.platformDataSpace) + (U32(l.platformDataLength)
      + (U32(l.reserved) + U64(l.platformDataOffset))))
  }

  function UnpackLocator(b: Buffer): (l: Locator)
    requires |b| == 24
    ensures ValidLocator(l)
  {
    Locator(FromU32(b[..4]), FromU32(b[4..8]), FromU32(b[8..12]), FromU32(b[12..16]), FromU64(b[16..]))
  }

  lemma LocatorRoundTrip(l: Locator)
    requires ValidLocator(l)
    ensures UnpackLocator(PackLocator(l)) == l
  {
    var b := PackLocator(l);
    var r4 := U64(l.platformDataOffset);
    var r3 := U32(l.reserved) + r4;
    var r2 := U32(l.platformDataLength) + r3;
    var r1 := U32(l.platformDataSpace) + r2;
    Chop(b, U32(l.platformCode), r1, b, 0);
    Chop(r1, U32(l.platformDataSpace), r2, b, 4);
    Chop(r2, U32(l.platformDataLength), r3, b, 8);
    Chop(r3, U32(l.reserved), r4, b, 12);
    U32RoundTrip(l.platformCode);
    U32RoundTrip(l.platformDataSpace);
    U32RoundTrip(l.platformDataLength);
    U32RoundTrip(l.reserved);
    U64RoundTrip(l.platformDataOffset);
  }

  function PackLocators(ls: seq<Locator>): (b: Buffer)
    requires forall i | 0 <= i < |ls| :: ValidLocator(ls[i])
    ensures |b| == 24 * |ls|
  {
    if ls == [] then [] else PackLocator(ls[0]) + PackLocators(ls[1..])
  }

  function UnpackLocators(b: Buffer): (ls: seq<Locator>)
    requires |b| % 24 == 0
    ensures 24 * |ls| == |b| && forall i | 0 <= i < |ls| :: ValidLocator(ls[i])
  {
    if b == [] then [] else [UnpackLocator(b[..24])] + UnpackLocators(b[24..])
  }

  lemma {:induction false} LocatorsRoundTrip(ls: seq<Locator>)
    requires forall i | 0 <= i < |ls| :: ValidLocator(ls[i])
    ensures UnpackLocators(PackLocators(ls)) == ls
  {
    if ls != [] {
      Slices(PackLocator(ls[0]), PackLocators(ls[1..]));
      LocatorRoundTrip(ls[0]);
      LocatorsRoundTrip(ls[1..]);
    }
  }

  function HeaderHead(h: Header): (b: Buffer)
    requires ValidHeader(h)
    ensures |b| == 36
  {
    HEADER_COOKIE + (UNDEFINED_OFFSET + (U64(h.tableOffset) + (U32(VERSION)
      + (U32(h.maxTableEntries) + U32(h.blockSize)))))
  }

  function HeaderTail(h: Header): (b: Buffer)
    requires ValidHeader(h)
    ensures |b| == 984
  {
    h.parent + (PackLocators(h.locators) + h.reserved)
  }

  function PackHeader(h: Header): (b: Buffer)
    requires ValidHeader(h)
    ensures |b| == HEADER_SIZE
  {
    Seal(HeaderHead(h), HeaderTail(h))
  }

  function HeaderChecksum(h: Header): (c: nat)
    requires ValidHeader(h)
  {
    Checksum(HeaderHead(h), HeaderTail(h))
  }

  /** Where each field of a header is, as the format's table of the dynamic disk header has it. */
  lemma HeaderPlaces(h: Header)
    requires ValidHeader(h)
    ensures var b := PackHeader(h);
      && b[..8] == [0x63, 0x78, 0x73, 0x70, 0x61, 0x72, 0x73, 0x65]
      && b[8..16] == [0xFF, 0xFF, 0xFF, 0xFF, 0xFF, 0xFF, 0xFF, 0xFF]
      && b[16..24] == U64(h.tableOffset) && b[24..28] == [0, 1, 0, 0] && b[28..32] == U32(h.maxTableEntries)
      && b[32..36] == U32(h.blockSize) && b[36..40] == U32(HeaderChecksum(h)) && b[40..56] == h.parent[..16]
      && b[56..576] == h.parent[16..] && b[768..] == h.reserved
  {
    var p, t, b := HeaderHead(h), HeaderTail(h), PackHeader(h);
    HeaderHeadFields(h);
    HeaderTailFields(h);
    assert U32(VERSION) == [0, 1, 0, 0];
    forall i, j | 0 <= i <= j <= 36 ensures b[i..j] == p[i..j] {
      assert b[i..j] == b[..36][i..j];
    }
    assert b[40..] == t && b[36..40] == U32(HeaderChecksum(h));
    assert b[40..56] == t[..536][..16] && b[56..576] == t[..536][16..] && b[768..] == t[728..];
  }

  /** Parent locator `i` of a header, field by field. */
  lemma LocatorPlaces(h: Header, i: nat)
    requires ValidHeader(h) && i < PARENT_LOCATOR_ENTRIES
    ensures var b, l, at := PackHeader(h), h.locators[i], 576 + 24 * i;
      && b[at..at + 4] == U32(l.platformCode) && b[at + 4..at + 8] == U32(l.platformDataSpace)
      && b[at + 8..at + 12] == U32(l.platformDataLength) && b[at + 12..at + 16] == U32(l.reserved)
      && b[at + 16..at + 24] == U64(l.platformDataOffset)
  {
    var b, at := PackHeader(h), 576 + 24 * i;
    LocatorBytesAre(h, i);
    PackedFields(h.locators[i]);
    hide PackHeader, PackLocator, ValidHeader, ValidLocator, U32, U64;
    SubSlice(b, at, at + 24, 0, 4);
    SubSlice(b, at, at + 24, 4, 4);
    SubSlice(b, at, at + 24, 8, 4);
    SubSlice(b, at, at + 24, 12, 4);
    SubSlice(b, at, at + 24, 16, 8);
  }

  lemma LocatorBytesAre(h: Header, i: nat)
    requires ValidHeader(h) && i < PARENT_LOCATOR_ENTRIES
    ensures PackHeader(h)[576 + 24 * i..576 + 24 * i + 24] == PackLocator(h.locators[i])
  {
    var t, b := HeaderTail(h), PackHeader(h);
    HeaderTailFields(h);
    PackedLocator(h.locators, i);
    assert b[40..] == t;
    hide PackHeader, HeaderTail, PackLocators, PackLocator;
    assert b[576..768] == t[536..728];
    SubSlice(b, 576, 768, 24 * i, 24);
  }

  lemma {:induction false} PackedLocator(ls: seq<Locator>, i: nat)
    requires i < |ls| && forall k | 0 <= k < |ls| :: ValidLocator(ls[k])
    ensures PackLocators(ls)[24 * i..24 * i + 24] == PackLocator(ls[i])
  {
    var first, rest := PackLocator(ls[0]), PackLocators(ls[1..]);
    if i > 0 {
      PackedLocator(ls[1..], i - 1);
      assert (first + rest)[24 * i..24 * i + 24] == rest[24 * (i - 1)..24 * (i - 1) + 24];
    }
  }

  lemma PackedFields(l: Locator)
    requires ValidLocator(l)
    ensures var b := PackLocator(l);
      && b[..4] == U32(l.platformCode) && b[4..8] == U32(l.platformDataSpace) && b[8..12] == U32(l.platformDataLength)
      && b[12..16] == U32(l.reserved) && b[16..24] == U64(l.platformDataOffset)
  {
    var b := PackLocator(l);
    var r4 := U64(l.platformDataOffset);
    var r3 := U32(l.reserved) + r4;
    var r2 := U32(l.platformDataLength) + r3;
    var r1 := U32(l.platformDataSpace) + r2;
    Chop(b, U32(l.platformCode), r1, b, 0);
    Chop(r1, U32(l.platformDataSpace), r2, b, 4);
    Chop(r2, U32(l.platformDataLength), r3, b, 8);
    Chop(r3, U32(l.reserved), r4, b, 12);
  }

  /** A header is accepted beside a footer if and only if all the checks pass. */
  lemma HeaderAccepted(b: Buffer, f: Footer)
    requires |b| == HEADER_SIZE
    ensures UnpackHeader(b, f).Some? <==>
      && b[..8] == [0x63, 0x78, 0x73, 0x70, 0x61, 0x72, 0x73, 0x65]
      && b[8..16] == [0xFF, 0xFF, 0xFF, 0xFF, 0xFF, 0xFF, 0xFF, 0xFF] && FromU32(b[24..28]) == 0x1_0000
      && FromU32(b[36..40]) == 0xFFFF_FFFF - Sum(b[..36]) - Sum(b[40..])
      && IsPowerOfTwo(FromU32(b[32..36])) && FromU32(b[28..32]) * FromU32(b[32..36]) >= f.currentSize
  {
    SealedWhen(b, 36);
    hide Sealed, FromU32, FromU64, Sum, IsPowerOfTwo, UnpackLocators;
  }

  /** unpackHeader with the footer read just before it. */
  function UnpackHeader(b: Buffer, f: Footer): (r: Option<Header>)
    requires |b| == HEADER_SIZE
    ensures r.Some? ==> ValidHeader(r.value) && FitsDisk(r.value, f)
  {
    if Sealed(b, 36) then ParseHeader(b, f) else None
  }

  /** The fields and checkHeader, without the checksum. */
  function ParseHeader(b: Buffer, f: Footer): (r: Option<Header>)
    requires |b| == HEADER_SIZE
    ensures r.Some? ==> ValidHeader(r.value) && FitsDisk(r.value, f)
  {
    var h := Header(
        FromU64(b[16..24]), FromU32(b[28..32]), FromU32(b[32..36]), b[40..576], UnpackLocators(b[576..768]), b[768..]);
    if b[..8] == HEADER_COOKIE && b[8..16] == UNDEFINED_OFFSET && FromU32(b[24..28]) == VERSION
       && ValidHeader(h) && FitsDisk(h, f)
    then Some(h) else None
  }

  lemma HeaderRoundTrip(h: Header, f: Footer)
    requires ValidHeader(h)
    ensures UnpackHeader(PackHeader(h), f) == if FitsDisk(h, f) then Some(h) else None
  {
    var p, t, b := HeaderHead(h), HeaderTail(h), PackHeader(h);
    SealIsSealed(p, t);
    HeaderHeadFields(h);
    HeaderTailFields(h);
    forall i, j | 0 <= i <= j <= 36 ensures b[i..j] == p[i..j] {
      assert b[i..j] == b[..36][i..j];
    }
    assert b[40..576] == t[..536] && b[576..768] == t[536..728] && b[768..] == t[728..];
    U64RoundTrip(h.tableOffset);
    U32RoundTrip(VERSION);
    U32RoundTrip(h.maxTableEntries);
    U32RoundTrip(h.blockSize);
    LocatorsRoundTrip(h.locators);
  }

  lemma HeaderHeadFields(h: Header)
    requires ValidHeader(h)
    ensures var p := HeaderHead(h);
      && p[..8] == HEADER_COOKIE && p[8..16] == UNDEFINED_OFFSET && p[16..24] == U64(h.tableOffset)
      && p[24..28] == U32(VERSION) && p[28..32] == U32(h.maxTableEntries) && p[32..36] == U32(h.blockSize)
  {
    var p := HeaderHead(h);
    var r5 := U32(h.blockSize);
    var r4 := U32(h.maxTableEntries) + r5;
    var r3 := U32(VERSION) + r4;
    var r2 := U64(h.tableOffset) + r3;
    var r1 := UNDEFINED_OFFSET + r2;
    Chop(p, HEADER_COOKIE, r1, p, 0);
    Chop(r1, UNDEFINED_OFFSET, r2, p, 8);
    Chop(r2, U64(h.tableOffset), r3, p, 16);
    Chop(r3, U32(VERSION), r4, p, 24);
    Chop(r4, U32(h.maxTableEntries), r5, p, 28);
  }

  lemma HeaderTailFields(h: Header)
    requires ValidHeader(h)
    ensures var t := HeaderTail(h);
      t[..536] == h.parent && t[536..728] == PackLocators(h.locators) && t[728..] == h.reserved
  {
    var t, ls := HeaderTail(h), PackLocators(h.locators);
    Chop(t, h.parent, ls + h.reserved, t, 0);
    Chop(ls + h.reserved, ls, h.reserved, t, 536);
  }
}
