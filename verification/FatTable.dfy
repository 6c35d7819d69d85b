/**
 * Entries of a file allocation table ("FAT: General Overview of On-Disk Format", sections "FAT Data
 * Structure" and "FAT Type Determination"): where they are, how two 12-bit entries share three bytes,
 * and what their values mean.
 */
module FatTable {
  import opened Bytes

  datatype FatType = Fat12 | Fat16 | Fat32

  /** By the count of clusters alone. */
  function TypeOf(countofClusters: nat): FatType {
    if countofClusters < 4085 then Fat12 else if countofClusters < 65525 then Fat16 else Fat32
  }

  const RSV_MIN: int := 0xF0
  const BAD: int := 0xF7
  const EOF_MIN: int := 0xF8
  const EOF: int := 0xFF

  function Prefix(t: FatType): nat {
    match t
    case Fat12 => 0xF00
    case Fat16 => 0xFF00
    case Fat32 => 0x0FFF_FF00
  }

  /** Entry values are below this. */
  function Limit(t: FatType): nat { Prefix(t) + 0x100 }

  function EntrySize(t: FatType): nat {
    match t
    case Fat12 => 3
    case Fat16 => 2
    case Fat32 => 4
  }

  /** First byte of the entry in the table, and of the pair of entries for FAT12. */
  function Offset(t: FatType, n: nat): nat {
    if t == Fat12 then n / 2 * EntrySize(t) else n * EntrySize(t)
  }

  predicate InTable(t: FatType, fat: Buffer, n: nat) { Offset(t, n) + EntrySize(t) <= |fat| }

  function Get(t: FatType, fat: Buffer, n: nat): (raw: int)
    requires InTable(t, fat, n)
    ensures 0 <= raw < 0x1000_0000
  {
    var p := Offset(t, n);
    match t
    case Fat12 =>
      if n % 2 == 1 then fat[p + 2] as int * 16 + fat[p + 1] as int / 16
      else fat[p + 1] as int % 16 * 256 + fat[p] as int
    case Fat16 => fat[p] as int + 256 * fat[p + 1] as int
    case Fat32 =>
      (fat[p] as int + 256 * fat[p + 1] as int + 0x1_0000 * fat[p + 2] as int + 0x100_0000 * fat[p + 3] as int)
      % 0x1000_0000
  }

  /**
   * Where an entry's digits are: low byte first, and for 12 bits the even entry of a pair in the first byte and a
   * half, the odd one in the rest.
   */
  lemma EntryDigits(fat: Buffer, n: nat)
    ensures InTable(Fat16, fat, n) <==> 2 * n + 2 <= |fat|
    ensures InTable(Fat32, fat, n) <==> 4 * n + 4 <= |fat|
    ensures InTable(Fat12, fat, n) <==> 3 * (n / 2) + 3 <= |fat|
    ensures InTable(Fat16, fat, n) ==> Get(Fat16, fat, n) == fat[2 * n] as int + 0x100 * fat[2 * n + 1] as int
    ensures InTable(Fat32, fat, n) ==> Get(Fat32, fat, n) == fat[4 * n] as int + 0x100 * fat[4 * n + 1] as int
                                         + 0x1_0000 * fat[4 * n + 2] as int + 0x100_0000 * (fat[4 * n + 3] as int % 16)
    ensures InTable(Fat12, fat, n) ==>
      var p := 3 * (n / 2);
      Get(Fat12, fat, n) == if n % 2 == 0 then fat[p] as int + 0x100 * (fat[p + 1] as int % 16)
                            else fat[p + 1] as int / 16 + 0x10 * fat[p + 2] as int
  {
    Digits16(fat, n);
    Digits28(fat, n);
    Digits12(fat, n);
    hide *;
  }

  lemma Digits16(fat: Buffer, n: nat)
    ensures InTable(Fat16, fat, n) <==> 2 * n + 2 <= |fat|
    ensures InTable(Fat16, fat, n) ==> Get(Fat16, fat, n) == fat[2 * n] as int + 0x100 * fat[2 * n + 1] as int
  {
  }

  lemma Digits28(fat: Buffer, n: nat)
    ensures InTable(Fat32, fat, n) <==> 4 * n + 4 <= |fat|
    ensures InTable(Fat32, fat, n) ==> Get(Fat32, fat, n) == fat[4 * n] as int + 0x100 * fat[4 * n + 1] as int
                                         + 0x1_0000 * fat[4 * n + 2] as int + 0x100_0000 * (fat[4 * n + 3] as int % 16)
  {
  }

  lemma Digits12(fat: Buffer, n: nat)
    ensures InTable(Fat12, fat, n) <==> 3 * (n / 2) + 3 <= |fat|
    ensures InTable(Fat12, fat, n) ==>
      var p := 3 * (n / 2);
      Get(Fat12, fat, n) == if n % 2 == 0 then fat[p] as int + 0x100 * (fat[p + 1] as int % 16)
                            else fat[p + 1] as int / 16 + 0x10 * fat[p + 2] as int
  {
  }

  /** The bytes that storeToFAT writes at the entry's place. */
  function EntryBytes(t: FatType, fat: Buffer, n: nat, raw: nat): (b: Buffer)
    requires InTable(t, fat, n) && raw < Limit(t)
    ensures |b| == EntrySize(t)
  {
    var p := Offset(t, n);
    match t
    case Fat12 =>
      if n % 2 == 1 then [fat[p], raw % 16 * 16 + fat[p + 1] as int % 16, raw / 16]
      else [raw % 256, fat[p + 1] as int / 16 * 16 + raw / 256, fat[p + 2]]
    case Fat16 => [raw % 256, raw / 256]
    case Fat32 => [raw % 256, raw / 256 % 256, raw / 0x1_0000 % 256, raw / 0x100_0000]
  }

  /** `after` is the table with entry `n` stored. */
  ghost predicate Stored(t: FatType, fat: Buffer, after: Buffer, n: nat, raw: nat) {
    InTable(t, fat, n) && raw < Limit(t) && Patched(fat, after, Offset(t, n), EntryBytes(t, fat, n, raw))
  }

  /** A stored entry reads back, and no other entry changes, even the one that shares its bytes. */
  lemma StoredEntry(t: FatType, fat: Buffer, after: Buffer, n: nat, raw: nat, m: nat)
    requires Stored(t, fat, after, n, raw)
    ensures |after| == |fat| && Get(t, after, n) == raw
    ensures m != n && InTable(t, fat, m) ==> Get(t, after, m) == Get(t, fat, m)
  {
    hide EntryBytes, Get;
    SliceStored(fat, after, Offset(t, n), EntryBytes(t, fat, n, raw));
    StoredReads(t, fat, after, n, raw);
    if m != n && InTable(t, fat, m) {
      if t == Fat12 && n / 2 == m / 2 {
        OtherOfPair(fat, after, n, raw, m);
      } else {
        Apart(t, n, m);
        SliceKept(fat, after, Offset(t, n), EntryBytes(t, fat, n, raw), Offset(t, m), EntrySize(t));
        SameBytes(t, fat, after, m);
      }
    }
  }

  lemma SliceStored(fat: Buffer, after: Buffer, p: nat, b: Buffer)
    requires Patched(fat, after, p, b) && p + |b| <= |fat|
    ensures |after| == |fat| && after[p..p + |b|] == b
  {
  }

  lemma SliceKept(fat: Buffer, after: Buffer, p: nat, b: Buffer, q: nat, size: nat)
    requires Patched(fat, after, p, b) && p + |b| <= |fat| && q + size <= |fat|
    requires q + size <= p || p + |b| <= q
    ensures |after| == |fat| && after[q..q + size] == fat[q..q + size]
  {
  }

  lemma SameBytes(t: FatType, fat: Buffer, after: Buffer, m: nat)
    requires InTable(t, fat, m) && InTable(t, after, m)
    requires fat[Offset(t, m)..Offset(t, m) + EntrySize(t)] == after[Offset(t, m)..Offset(t, m) + EntrySize(t)]
    ensures Get(t, after, m) == Get(t, fat, m)
  {
    var p, size := Offset(t, m), EntrySize(t);
    assert fat[p] == fat[p..p + size][0] && fat[p + 1] == fat[p..p + size][1];
    assert after[p] == after[p..p + size][0] && after[p + 1] == after[p..p + size][1];
    if t != Fat16 {
      assert fat[p + 2] == fat[p..p + size][2] && after[p + 2] == after[p..p + size][2];
    }
    if t == Fat32 {
      assert fat[p + 3] == fat[p..p + size][3] && after[p + 3] == after[p..p + size][3];
    }
  }

  lemma StoredReads(t: FatType, fat: Buffer, after: Buffer, n: nat, raw: nat)
    requires InTable(t, fat, n) && InTable(t, after, n) && raw < Limit(t)
    requires after[Offset(t, n)..Offset(t, n) + EntrySize(t)] == EntryBytes(t, fat, n, raw)
    ensures Get(t, after, n) == raw
  {
    hide EntryBytes;
    var p, b := Offset(t, n), EntryBytes(t, fat, n, raw);
    assert after[p] == b[0] && after[p + 1] == b[1];
    if t != Fat16 {
      assert after[p + 2] == b[2];
    }
    if t == Fat32 {
      assert after[p + 3] == b[3];
    }
    BytesRead(t, fat, after, n, raw);
  }

  lemma BytesRead(t: FatType, fat: Buffer, after: Buffer, n: nat, raw: nat)
    requires InTable(t, fat, n) && InTable(t, after, n) && raw < Limit(t)
    requires forall k | 0 <= k < EntrySize(t) :: after[Offset(t, n) + k] == EntryBytes(t, fat, n, raw)[k]
    ensures Get(t, after, n) == raw
  {
    var p, b := Offset(t, n), EntryBytes(t, fat, n, raw);
    assert after[p + 0] == b[0] && after[p + 1] == b[1];
    if t != Fat16 {
      assert after[p + 2] == b[2];
    }
    if t == Fat32 {
      assert after[p + 3] == b[3];
      Digits(raw);
    }
  }

  lemma Digits(raw: nat)
    requires raw < 0x1000_0000
    ensures raw % 256 + 256 * (raw / 256 % 256) + 0x1_0000 * (raw / 0x1_0000 % 256) + 0x100_0000 * (raw / 0x100_0000)
      == raw
  {
  }

  lemma OtherOfPair(fat: Buffer, after: Buffer, n: nat, raw: nat, m: nat)
    requires InTable(Fat12, fat, n) && InTable(Fat12, after, n) && raw < Limit(Fat12) && n / 2 == m / 2 && n != m
    requires after[Offset(Fat12, n)..Offset(Fat12, n) + 3] == EntryBytes(Fat12, fat, n, raw)
    ensures InTable(Fat12, fat, m) && Get(Fat12, after, m) == Get(Fat12, fat, m)
  {
    var p, b := Offset(Fat12, n), EntryBytes(Fat12, fat, n, raw);
    assert after[p] == b[0] && after[p + 1] == b[1] && after[p + 2] == b[2];
    assert n % 2 != m % 2;
  }

  /** Entries that are not of one pair do not share bytes. */
  lemma Apart(t: FatType, n: nat, m: nat)
    requires n != m && (t == Fat12 ==> n / 2 != m / 2)
    ensures Offset(t, n) + EntrySize(t) <= Offset(t, m) || Offset(t, m) + EntrySize(t) <= Offset(t, n)
  {
  }

  // ----- entries across sectors -----------------------------------------------------------------------------

  /** The sectors that the standard allows have 512, 1024, 2048 or 4096 bytes. */
  predicate ValidSectorSize(size: nat) { size > 0 && size % 4 == 0 }

  /** The entry begins in one sector and ends in the next. */
  predicate Straddles(t: FatType, n: nat, size: nat)
    requires ValidSectorSize(size)
  {
    Offset(t, n) % size + EntrySize(t) > size
  }

  /** How many bytes of such an entry are in its first sector. */
  function Head(t: FatType, n: nat, size: nat): (k: nat)
    requires ValidSectorSize(size)
    ensures k > 0
  {
    size - Offset(t, n) % size
  }

  lemma Twice(a: nat, m: nat)
    requires m > 0
    ensures 2 * a % (2 * m) == 2 * (a % m)
  {
    var q, r := a / m, a % m;
    assert a == q * m + r;
    assert q * (2 * m) == 2 * (q * m);
    Remainder(2 * a, 2 * m, q, 2 * r);
  }

  lemma Remainder(a: nat, d: nat, q: nat, r: nat)
    requires r < d && a == q * d + r
    ensures a % d == r && a / d == q
  {
    var p, s := a / d, a % d;
    assert a == p * d + s;
    assert (p - q) * d == r - s;
    assert p - q >= 1 ==> (p - q) * d >= d;
    assert q - p >= 1 ==> (q - p) * d >= d;
  }

  /** Only entries of 12 bits straddle sectors. */
  lemma OnlyFat12Straddles(t: FatType, n: nat, size: nat)
    requires ValidSectorSize(size) && Straddles(t, n, size)
    ensures t == Fat12 && 1 <= Head(t, n, size) <= 2
  {
    var m := size / 4;
    assert size == 2 * (2 * m);
    Twice(n, 2 * m);
    Twice(2 * n, 2 * m);
    Twice(n, m);
  }

  /** After the first of two sector writes: the first `k` bytes of the entry are stored. */
  ghost predicate HalfStored(t: FatType, fat: Buffer, after: Buffer, n: nat, raw: nat, k: nat) {
    && InTable(t, fat, n) && raw < Limit(t) && k <= EntrySize(t)
    && Patched(fat, after, Offset(t, n), EntryBytes(t, fat, n, raw)[..k])
  }

  /** The rest of the entry completes it. */
  lemma StoredInHalves(t: FatType, fat: Buffer, middle: Buffer, after: Buffer, n: nat, raw: nat, k: nat)
    requires HalfStored(t, fat, middle, n, raw, k)
    requires Patched(middle, after, Offset(t, n) + k, EntryBytes(t, fat, n, raw)[k..])
    ensures Stored(t, fat, after, n, raw)
  {
    hide EntryBytes;
  }

  /** What the half-stored entry reads as. */
  function HalfRaw(n: nat, k: nat, was: nat, raw: nat): nat {
    if n % 2 == 0 then if k == 1 then was / 256 * 256 + raw % 256 else raw
    else if k == 1 then was else was / 16 * 16 + raw % 16
  }

  /** The first `k` bytes of entry `c` hold a part of its value. */
  predicate TearsAt(c: nat, k: nat) { (c % 2 == 0 && k == 1) || (c % 2 == 1 && k == 2) }

  /**
   * A half-stored entry reads as the old or the new value, if and only if the bytes hold no part of it
   * or the parts agree.
   */
  lemma HalfIsOldOrNew(n: nat, k: nat, was: nat, raw: nat)
    requires 1 <= k <= 2 && was < Limit(Fat12) && raw < Limit(Fat12)
    ensures HalfRaw(n, k, was, raw) == was || HalfRaw(n, k, was, raw) == raw
      <==> !TearsAt(n, k) || (if n % 2 == 0 then was % 256 == raw % 256 || was / 256 == raw / 256
                              else was % 16 == raw % 16 || was / 16 == raw / 16)
  {
  }

  /** Half of an entry mixes the old and the new value; no other entry changes. */
  lemma HalfStoredEntry(fat: Buffer, after: Buffer, n: nat, raw: nat, k: nat, m: nat)
    requires HalfStored(Fat12, fat, after, n, raw, k) && 1 <= k <= 2
    ensures |after| == |fat| && Get(Fat12, after, n) == HalfRaw(n, k, Get(Fat12, fat, n), raw)
    ensures m != n && InTable(Fat12, fat, m) ==> Get(Fat12, after, m) == Get(Fat12, fat, m)
  {
    var p, b := Offset(Fat12, n), EntryBytes(Fat12, fat, n, raw);
    assert after[p] == b[..k][0] == b[0];
    assert k == 2 ==> after[p + 1] == b[..k][1] == b[1];
    HalfReads(fat, after, n, raw, k);
    if m != n && InTable(Fat12, fat, m) {
      if n / 2 == m / 2 {
        HalfOfPair(fat, after, n, raw, k, m);
      } else {
        Apart(Fat12, n, m);
        hide EntryBytes;
        var q := Offset(Fat12, m);
        assert after[q..q + 3] == fat[q..q + 3];
        SameBytes(Fat12, fat, after, m);
      }
    }
  }

  lemma HalfReads(fat: Buffer, after: Buffer, n: nat, raw: nat, k: nat)
    requires InTable(Fat12, fat, n) && InTable(Fat12, after, n) && raw < Limit(Fat12) && 1 <= k <= 2
    requires var p, b := Offset(Fat12, n), EntryBytes(Fat12, fat, n, raw);
      after[p] == b[0] && after[p + 1] == (if k == 2 then b[1] else fat[p + 1]) && after[p + 2] == fat[p + 2]
    ensures Get(Fat12, after, n) == HalfRaw(n, k, Get(Fat12, fat, n), raw)
  {
    if n % 2 == 0 {
      HalfReadsEven(fat, after, n, raw, k);
    } else {
      HalfReadsOdd(fat, after, n, raw, k);
    }
  }

  lemma EvenNibble(low: nat, middle: nat, high: nat)
    requires low < 256 && high < 16
    ensures (middle % 16 * 256 + low) / 256 == middle % 16 && (middle / 16 * 16 + high) % 16 == high
  {
  }

  lemma OddNibble(middle: nat, high: nat, low: nat)
    requires middle < 256 && low < 16
    ensures (high * 16 + middle / 16) / 16 == high && (low * 16 + middle % 16) / 16 == low
  {
  }

  lemma HalfReadsEven(fat: Buffer, after: Buffer, n: nat, raw: nat, k: nat)
    requires InTable(Fat12, fat, n) && InTable(Fat12, after, n) && raw < Limit(Fat12) && 1 <= k <= 2 && n % 2 == 0
    requires var p, b := Offset(Fat12, n), EntryBytes(Fat12, fat, n, raw);
      after[p] == b[0] && after[p + 1] == (if k == 2 then b[1] else fat[p + 1]) && after[p + 2] == fat[p + 2]
    ensures Get(Fat12, after, n) == HalfRaw(n, k, Get(Fat12, fat, n), raw)
  {
    var p, b := Offset(Fat12, n), EntryBytes(Fat12, fat, n, raw);
    assert k == 2 ==> after[p + 1] as int == fat[p + 1] as int / 16 * 16 + raw / 256;
    assert raw == raw / 256 * 256 + raw % 256;
    EvenNibble(fat[p] as nat, fat[p + 1] as nat, raw / 256);
  }

  lemma HalfReadsOdd(fat: Buffer, after: Buffer, n: nat, raw: nat, k: nat)
    requires InTable(Fat12, fat, n) && InTable(Fat12, after, n) && raw < Limit(Fat12) && 1 <= k <= 2 && n % 2 == 1
    requires var p, b := Offset(Fat12, n), EntryBytes(Fat12, fat, n, raw);
      after[p] == b[0] && after[p + 1] == (if k == 2 then b[1] else fat[p + 1]) && after[p + 2] == fat[p + 2]
    ensures Get(Fat12, after, n) == HalfRaw(n, k, Get(Fat12, fat, n), raw)
  {
    var p, b := Offset(Fat12, n), EntryBytes(Fat12, fat, n, raw);
    assert k == 2 ==> after[p + 1] as int == raw % 16 * 16 + fat[p + 1] as int % 16;
    OddNibble(fat[p + 1] as nat, fat[p + 2] as nat, raw % 16);
  }

  lemma HalfOfPair(fat: Buffer, after: Buffer, n: nat, raw: nat, k: nat, m: nat)
    requires InTable(Fat12, fat, n) && InTable(Fat12, after, n) && raw < Limit(Fat12) && 1 <= k <= 2 && n / 2 == m / 2
    requires n != m
    requires var p, b := Offset(Fat12, n), EntryBytes(Fat12, fat, n, raw);
      after[p] == b[0] && after[p + 1] == (if k == 2 then b[1] else fat[p + 1]) && after[p + 2] == fat[p + 2]
    ensures InTable(Fat12, fat, m) && Get(Fat12, after, m) == Get(Fat12, fat, m)
  {
    assert n % 2 != m % 2;
  }

  // ----- what values mean --------------------------------------------------------------------------------

  datatype Status = Free | Invalid | EndOfChain | BadCluster | Reserved | Next(cluster: nat)

  function Classify(t: FatType, raw: nat): Status {
    if raw == 0 then Free
    else if raw == 1 then Invalid
    else if raw > Prefix(t) + EOF_MIN then EndOfChain
    else if raw == Prefix(t) + BAD then BadCluster
    else if raw > Prefix(t) + RSV_MIN then Reserved
    else Next(raw)
  }

  /** What storeToFAT stores for a named status: the type's prefix is added whatever the name. */
  function NamedRaw(t: FatType, status: int): int { Prefix(t) + status }

  /** What the values mean, type by type. */
  lemma Meanings(raw: nat)
    ensures Classify(Fat12, raw) == EndOfChain <==> raw > 0xFF8
    ensures Classify(Fat16, raw) == EndOfChain <==> raw > 0xFFF8
    ensures Classify(Fat32, raw) == EndOfChain <==> raw > 0x0FFF_FFF8
    ensures Classify(Fat12, raw) == BadCluster <==> raw == 0xFF7
    ensures Classify(Fat16, raw) == BadCluster <==> raw == 0xFFF7
    ensures Classify(Fat32, raw) == BadCluster <==> raw == 0x0FFF_FFF7
    ensures Classify(Fat12, raw).Next? <==> 2 <= raw <= 0xFF0
    ensures Classify(Fat16, raw).Next? <==> 2 <= raw <= 0xFFF0
    ensures Classify(Fat32, raw).Next? <==> 2 <= raw <= 0x0FFF_FFF0
    ensures forall t | Classify(t, raw).Next? :: Classify(t, raw) == Next(raw)
    ensures forall t :: (Classify(t, raw) == Free <==> raw == 0) && (Classify(t, raw) == Invalid <==> raw == 1)
    ensures NamedRaw(Fat12, EOF) == 0xFFF && NamedRaw(Fat16, EOF) == 0xFFFF && NamedRaw(Fat32, EOF) == 0x0FFF_FFFF
  {
  }

  /** An entry marked as the end of a chain reads as one. */
  lemma EofReads(t: FatType)
    ensures NamedRaw(t, EOF) < Limit(t) && Classify(t, NamedRaw(t, EOF)) == EndOfChain
  {
  }

  /** The values that the standard takes as the end of a chain. */
  predicate StandardEnd(t: FatType, raw: nat) { Prefix(t) + EOF_MIN <= raw < Limit(t) }

  /** Of these, the reader takes all but the first as the end, which it takes as reserved; and it takes nothing else. */
  lemma EndsReadAs(t: FatType, raw: nat)
    requires raw < Limit(t)
    ensures Classify(t, raw) == EndOfChain <==> StandardEnd(t, raw) && raw != Prefix(t) + EOF_MIN
    ensures raw == Prefix(t) + EOF_MIN ==> Classify(t, raw) == Reserved
    ensures StandardEnd(t, raw)
      <==> raw >= match t case Fat12 => 0xFF8 case Fat16 => 0xFFF8 case Fat32 => 0x0FFF_FFF8
  {
  }

  /** No status stored by its name reads as free: up to the reserved ones, they read as links. */
  lemma NamedReadsAs(t: FatType, status: nat)
    requires status < 0x100
    ensures Classify(t, NamedRaw(t, status)) != Free
    ensures Classify(t, NamedRaw(t, status)) == Next(NamedRaw(t, status)) <==> status <= RSV_MIN
  {
  }

  /** Every cluster number that the volume may allocate can be stored as a link and reads back. */
  ghost predicate LinksReadBack(t: FatType, countofClusters: nat) {
    forall n: nat | 2 <= n < countofClusters :: n < Limit(t) && Classify(t, n) == Next(n)
  }

  /** That holds if and only if the count of clusters leaves out the values the reader takes as reserved. */
  lemma LinksReadBackWhen(t: FatType, countofClusters: nat)
    ensures LinksReadBack(t, countofClusters) <==> countofClusters <= Prefix(t) + RSV_MIN + 1
  {
    var n := Prefix(t) + RSV_MIN + 1;
    assert Classify(t, n) == Reserved && 2 <= n;
    forall k: nat | 2 <= k < n ensures k < Limit(t) && Classify(t, k) == Next(k) {
    }
    if countofClusters > n {
      assert !(n < Limit(t) && Classify(t, n) == Next(n));
    } else {
      assert LinksReadBack(t, countofClusters);
    }
  }

  /** The largest FAT12 and FAT16 volumes, as the type is determined, do not meet it. */
  lemma LargestVolumesDoNot()
    ensures TypeOf(4084) == Fat12 && !LinksReadBack(Fat12, 4084)
    ensures TypeOf(65524) == Fat16 && !LinksReadBack(Fat16, 65524)
  {
    LinksReadBackWhen(Fat12, 4084);
    LinksReadBackWhen(Fat16, 65524);
  }
}
