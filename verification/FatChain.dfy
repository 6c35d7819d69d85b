/** Cluster chains in the file allocation table, and growing them one cluster at a time. */
module FatChain {
  import opened Bytes
  import opened FatTable

  datatype Error = NoSpace | IoError | Interrupted

  datatype Result<+T> = Ok(value: T) | Err(error: Error)

  // ----- chains -------------------------------------------------------------------------------------------

  function StatusOf(t: FatType, fat: Buffer, n: nat): Status
    requires InTable(t, fat, n)
  {
    Classify(t, Get(t, fat, n))
  }

  /** What the entry of the chain's cluster `i` must say. */
  function LinkAfter(cs: seq<nat>, i: nat): Status
    requires i < |cs|
  {
    if i < |cs| - 1 then Next(cs[i + 1]) else EndOfChain
  }

  /** Distinct clusters, each linked to the next, the last one marked as the end. */
  ghost predicate IsChain(t: FatType, fat: Buffer, cs: seq<nat>) {
    && |cs| > 0
    && (forall i | 0 <= i < |cs| :: cs[i] >= 2 && InTable(t, fat, cs[i]))
    && (forall i, j | 0 <= i < j < |cs| :: cs[i] != cs[j])
    && (forall i | 0 <= i < |cs| :: StatusOf(t, fat, cs[i]) == LinkAfter(cs, i))
  }

  ghost predicate IsFree(t: FatType, fat: Buffer, n: nat) { InTable(t, fat, n) && StatusOf(t, fat, n) == Free }

  predicate Disjoint(a: seq<nat>, b: seq<nat>) { forall x | x in a :: x !in b }

  lemma DisjointWhen(a: seq<nat>, b: seq<nat>)
    ensures Disjoint(a, b) <==> forall i, j | 0 <= i < |a| && 0 <= j < |b| :: a[i] != b[j]
  {
    assert forall i | 0 <= i < |a| :: a[i] in a;
    assert forall j | 0 <= j < |b| :: b[j] in b;
  }

  lemma FreeIsUnlinked(t: FatType, fat: Buffer, cs: seq<nat>, n: nat)
    requires IsChain(t, fat, cs) && IsFree(t, fat, n)
    ensures n !in cs
  {
    assert forall i | 0 <= i < |cs| :: StatusOf(t, fat, cs[i]) == LinkAfter(cs, i) != Free;
  }

  lemma LinkKnown(t: FatType, fat: Buffer, cs: seq<nat>, i: nat)
    requires IsChain(t, fat, cs) && i < |cs|
    ensures cs[i] >= 2 && InTable(t, fat, cs[i]) && StatusOf(t, fat, cs[i]) == LinkAfter(cs, i)
  {
  }

  lemma EndNotFree(t: FatType, fat: Buffer, cs: seq<nat>, n: nat)
    requires IsChain(t, fat, cs) && IsFree(t, fat, n)
    ensures cs != [] && n != cs[|cs| - 1]
  {
    assert cs[|cs| - 1] in cs;
    FreeIsUnlinked(t, fat, cs, n);
  }

  /** Storing an entry outside a chain keeps the chain. */
  lemma ChainKept(t: FatType, fat: Buffer, after: Buffer, n: nat, raw: nat, cs: seq<nat>)
    requires IsChain(t, fat, cs) && Stored(t, fat, after, n, raw) && n !in cs
    ensures IsChain(t, after, cs)
  {
    forall i | 0 <= i < |cs|
      ensures InTable(t, after, cs[i]) && StatusOf(t, after, cs[i]) == StatusOf(t, fat, cs[i])
    {
      assert cs[i] in cs;
      StoredEntry(t, fat, after, n, raw, cs[i]);
    }
  }

  /** A free cluster marked as an end is a chain of its own. */
  lemma NewChain(t: FatType, fat: Buffer, after: Buffer, n: nat)
    requires n >= 2 && Stored(t, fat, after, n, NamedRaw(t, EOF))
    ensures IsChain(t, after, [n])
  {
    StoredEntry(t, fat, after, n, NamedRaw(t, EOF), n);
    EofReads(t);
    var cs := [n];
    assert StatusOf(t, after, n) == LinkAfter(cs, 0);
  }

  /** Linking the last cluster of a chain to a new one joins them. */
  lemma ChainGrown(t: FatType, fat: Buffer, after: Buffer, cs: seq<nat>, n: nat)
    requires IsChain(t, fat, cs) && IsChain(t, fat, [n]) && n !in cs
    requires Stored(t, fat, after, cs[|cs| - 1], n) && Classify(t, n) == Next(n)
    ensures IsChain(t, after, cs + [n])
  {
    var last, grown := cs[|cs| - 1], cs + [n];
    StoredEntry(t, fat, after, last, n, last);
    assert StatusOf(t, fat, [n][0]) == LinkAfter([n], 0);
    forall i | 0 <= i < |grown|
      ensures grown[i] >= 2 && InTable(t, after, grown[i]) && StatusOf(t, after, grown[i]) == LinkAfter(grown, i)
    {
      StoredEntry(t, fat, after, last, n, grown[i]);
      if i < |cs| - 1 {
        assert StatusOf(t, fat, cs[i]) == LinkAfter(cs, i) && cs[i] != last;
      } else if i == |cs| {
        assert grown[i] == n && n != last;
      }
    }
    assert forall i | 0 <= i < |cs| :: cs[i] in cs;
  }

  // ----- what growing may change -----------------------------------------------------------------------------

  /** Only entries that were free, and the entry of `tail`, may differ. */
  ghost predicate GrowthOnly(t: FatType, fat: Buffer, after: Buffer, tail: nat) {
    && |after| == |fat|
    && forall m: nat | InTable(t, fat, m) && Get(t, after, m) != Get(t, fat, m) :: m == tail || IsFree(t, fat, m)
  }

  /** Growing a chain keeps every other chain. */
  lemma OthersKept(t: FatType, fat: Buffer, after: Buffer, tail: nat, other: seq<nat>)
    requires GrowthOnly(t, fat, after, tail) && IsChain(t, fat, other) && tail !in other
    ensures IsChain(t, after, other)
  {
    forall i | 0 <= i < |other|
      ensures InTable(t, after, other[i]) && Get(t, after, other[i]) == Get(t, fat, other[i])
    {
      assert other[i] in other;
      if IsFree(t, fat, other[i]) {
        FreeIsUnlinked(t, fat, other, other[i]);
      }
    }
  }

  lemma GrowthStep(t: FatType, fat: Buffer, middle: Buffer, after: Buffer, tail: nat, n: nat, raw: nat)
    requires GrowthOnly(t, fat, middle, tail) && Stored(t, middle, after, n, raw)
    requires n == tail || IsFree(t, fat, n)
    ensures GrowthOnly(t, fat, after, tail)
  {
    forall m: nat | InTable(t, fat, m) && Get(t, after, m) != Get(t, fat, m) ensures m == tail || IsFree(t, fat, m) {
      StoredEntry(t, middle, after, n, raw, m);
    }
    StoredEntry(t, middle, after, n, raw, n);
  }

  ghost predicate InTables(t: FatType, fat: Buffer, count: nat) { forall n: nat | n < count :: InTable(t, fat, n) }

  lemma SameTables(t: FatType, fat: Buffer, after: Buffer, count: nat)
    requires InTables(t, fat, count) && |after| == |fat|
    ensures InTables(t, after, count)
  {
    forall n: nat | n < count ensures InTable(t, after, n) {
      assert InTable(t, fat, n);
    }
  }

  // ----- links that are half stored -----------------------------------------------------------------------------

  /**
   * Stopping after the first `k` bytes of a link from the end `c` of a chain to `n` leaves a chain that
   * does not end.
   */
  predicate Breaks(c: nat, n: nat, k: nat) {
    || (c % 2 == 0 && k == 1 && n % 256 <= EOF_MIN && n < Prefix(Fat12))
    || (c % 2 == 1 && k == 2 && n % 16 <= EOF_MIN % 16 && n < Prefix(Fat12) + RSV_MIN)
  }

  lemma BreaksTears(c: nat, n: nat, k: nat)
    ensures Breaks(c, n, k) ==> TearsAt(c, k)
  {
  }

  lemma HalfStatus(c: nat, n: nat, k: nat, was: nat)
    requires Classify(Fat12, was) == EndOfChain && was < Limit(Fat12) && 2 <= n <= Prefix(Fat12) + RSV_MIN
    requires 1 <= k <= 2
    ensures var status := Classify(Fat12, HalfRaw(c, k, was, n));
      status == EndOfChain || status == Next(n) <==> !Breaks(c, n, k)
  {
    assert was / 256 == 0xF && was / 16 == 0xFF;
    assert n == n / 256 * 256 + n % 256 && n == n / 16 * 16 + n % 16;
  }

  lemma Fat12Limit(fat: Buffer, n: nat)
    requires InTable(Fat12, fat, n)
    ensures Get(Fat12, fat, n) < Limit(Fat12)
  {
  }

  /**
   * A link that is half stored leaves the chain as it was or already linked, if and only if it does not
   * break it.
   */
  lemma HalfLinked(t: FatType, fat: Buffer, after: Buffer, cs: seq<nat>, n: nat, size: nat)
    requires IsChain(t, fat, cs) && IsChain(t, fat, [n]) && n !in cs && n <= Prefix(t) + RSV_MIN
    requires ValidSectorSize(size)
    requires var last := cs[|cs| - 1];
      Straddles(t, last, size) && HalfStored(t, fat, after, last, n, Head(t, last, size))
    ensures var last := cs[|cs| - 1];
      IsChain(t, after, cs) || IsChain(t, after, cs + [n]) <==> !Breaks(last, n, Head(t, last, size))
    ensures GrowthOnly(t, fat, after, cs[|cs| - 1])
  {
    var last := cs[|cs| - 1];
    var k := Head(t, last, size);
    OnlyFat12Straddles(t, last, size);
    LinkKnown(t, fat, cs, |cs| - 1);
    LinkKnown(t, fat, [n], 0);
    Fat12Limit(fat, last);
    hide Straddles, HalfStored, Head, Classify, Breaks, HalfRaw, Get;
    HalfStoredEntry(fat, after, last, n, k, last);
    HalfStatus(last, n, k, Get(t, fat, last));
    forall m: nat | InTable(t, fat, m) && m != last ensures Get(t, after, m) == Get(t, fat, m) {
      HalfStoredEntry(fat, after, last, n, k, m);
    }
    StatusOfTail(t, fat, after, cs, n);
  }

  /** When only the end of a chain has another entry, that entry decides. */
  lemma StatusOfTail(t: FatType, fat: Buffer, after: Buffer, cs: seq<nat>, n: nat)
    requires IsChain(t, fat, cs) && IsChain(t, fat, [n]) && n !in cs && |after| == |fat|
    requires forall m: nat | InTable(t, fat, m) && m != cs[|cs| - 1] :: Get(t, after, m) == Get(t, fat, m)
    ensures var last := cs[|cs| - 1];
      InTable(t, after, last) && (IsChain(t, after, cs) <==> StatusOf(t, after, last) == EndOfChain)
      && (IsChain(t, after, cs + [n]) <==> StatusOf(t, after, last) == Next(n))
  {
    assert |cs| > 0;
    hide Get, Classify, IsChain;
    LinkKnown(t, fat, cs, |cs| - 1);
    if IsChain(t, after, cs) {
      LinkKnown(t, after, cs, |cs| - 1);
    }
    if IsChain(t, after, cs + [n]) {
      LinkKnown(t, after, cs + [n], |cs| - 1);
    }
    if StatusOf(t, after, cs[|cs| - 1]) == EndOfChain {
      TailKept(t, fat, after, cs);
    }
    if StatusOf(t, after, cs[|cs| - 1]) == Next(n) {
      TailLinked(t, fat, after, cs, n);
    }
  }

  lemma TailKept(t: FatType, fat: Buffer, after: Buffer, cs: seq<nat>)
    requires IsChain(t, fat, cs) && |after| == |fat| && InTable(t, after, cs[|cs| - 1])
    requires forall m: nat | InTable(t, fat, m) && m != cs[|cs| - 1] :: Get(t, after, m) == Get(t, fat, m)
    requires StatusOf(t, after, cs[|cs| - 1]) == EndOfChain
    ensures IsChain(t, after, cs)
  {
    hide Get, Classify;
    forall i | 0 <= i < |cs| ensures InTable(t, after, cs[i]) && StatusOf(t, after, cs[i]) == LinkAfter(cs, i) {
      assert StatusOf(t, fat, cs[i]) == LinkAfter(cs, i);
    }
  }

  lemma TailLinked(t: FatType, fat: Buffer, after: Buffer, cs: seq<nat>, n: nat)
    requires IsChain(t, fat, cs) && IsChain(t, fat, [n]) && n !in cs && |after| == |fat|
    requires InTable(t, after, cs[|cs| - 1])
    requires forall m: nat | InTable(t, fat, m) && m != cs[|cs| - 1] :: Get(t, after, m) == Get(t, fat, m)
    requires StatusOf(t, after, cs[|cs| - 1]) == Next(n)
    ensures IsChain(t, after, cs + [n])
  {
    hide Get, Classify;
    var grown := cs + [n];
    assert forall i | 0 <= i < |cs| :: cs[i] in cs;
    assert StatusOf(t, fat, [n][0]) == LinkAfter([n], 0);
    forall i | 0 <= i < |grown|
      ensures grown[i] >= 2 && InTable(t, after, grown[i]) && StatusOf(t, after, grown[i]) == LinkAfter(grown, i)
    {
      if i < |cs| {
        assert StatusOf(t, fat, cs[i]) == LinkAfter(cs, i);
      } else {
        assert grown[i] == n != cs[|cs| - 1];
      }
    }
  }

  /**
   * `fat` is a table in which a link from the end of the chain `cs` has been half stored, and does not
   * end any more.
   */
  ghost predicate TornLink(t: FatType, fat: Buffer, cs: seq<nat>, size: nat) {
    exists whole: Buffer, n: nat :: TornFrom(t, whole, fat, cs, n, size)
  }

  ghost predicate TornFrom(t: FatType, whole: Buffer, fat: Buffer, cs: seq<nat>, n: nat, size: nat) {
    && IsChain(t, whole, cs) && ValidSectorSize(size) && Straddles(t, cs[|cs| - 1], size)
    && HalfStored(t, whole, fat, cs[|cs| - 1], n, Head(t, cs[|cs| - 1], size))
    && Breaks(cs[|cs| - 1], n, Head(t, cs[|cs| - 1], size))
    && !IsChain(t, fat, cs) && !IsChain(t, fat, cs + [n])
  }

  /** No entry of the table can be left half stored as neither the old nor the new one. */
  ghost predicate NeverTears(t: FatType, fat: Buffer, size: nat)
    requires ValidSectorSize(size)
  {
    forall c: nat | InTable(t, fat, c) && Straddles(t, c, size) :: !TearsAt(c, Head(t, c, size))
  }

  /** Where no entry tears, no link does. */
  lemma NeverTorn(t: FatType, fat: Buffer, cs: seq<nat>, size: nat)
    requires ValidSectorSize(size) && NeverTears(t, fat, size)
    ensures !TornLink(t, fat, cs, size)
  {
    if TornLink(t, fat, cs, size) {
      var whole: Buffer, n: nat :| TornFrom(t, whole, fat, cs, n, size);
      BreaksTears(cs[|cs| - 1], n, Head(t, cs[|cs| - 1], size));
      assert InTable(t, fat, cs[|cs| - 1]);
    }
  }

  /** With sectors of 512 bytes, linking cluster 682 to 683 can leave it linked to 4011. */
  lemma TornExample() returns (fat: Buffer, after: Buffer)
    ensures IsChain(Fat12, fat, [682]) && HalfStored(Fat12, fat, after, 682, 683, Head(Fat12, 682, 512))
    ensures StatusOf(Fat12, after, 682) == Next(0xFAB) && TornLink(Fat12, after, [682], 512)
  {
    fat := seq(2048, i => if 1023 <= i <= 1025 then 0xFF else 0);
    after := fat[1023 := 0xAB];
    assert Offset(Fat12, 682) == 1023 && Head(Fat12, 682, 512) == 1;
    assert StatusOf(Fat12, fat, [682][0]) == LinkAfter([682], 0);
    assert EntryBytes(Fat12, fat, 682, 683)[..1] == [0xAB];
    assert StatusOf(Fat12, after, [682][0]) != LinkAfter([682], 0);
    assert StatusOf(Fat12, after, ([682] + [683])[0]) != LinkAfter([682] + [683], 0);
    assert TornFrom(Fat12, fat, after, [682], 683, 512);
  }

  // ----- the volume --------------------------------------------------------------------------------------------

  /** How many clusters are free from `from` on. */
  function FreeFrom(t: FatType, fat: Buffer, from: nat, count: nat): nat
    requires InTables(t, fat, count)
    decreases count - from
  {
    if from >= count then 0 else (if StatusOf(t, fat, from) == Free then 1 else 0) + FreeFrom(t, fat, from + 1, count)
  }

  lemma {:induction false} NoneFree(t: FatType, fat: Buffer, from: nat, count: nat)
    requires InTables(t, fat, count)
    ensures FreeFrom(t, fat, from, count) == 0 <==> NoFreeFrom(t, fat, from, count)
    decreases count - from
  {
    if from < count {
      assert StatusOf(t, fat, from) == Free <==> IsFree(t, fat, from);
      NoneFree(t, fat, from + 1, count);
    }
  }

  lemma {:induction false} SameFree(t: FatType, fat: Buffer, after: Buffer, from: nat, count: nat)
    requires InTables(t, fat, count) && InTables(t, after, count)
    requires forall m: nat | from <= m < count :: Get(t, after, m) == Get(t, fat, m)
    ensures FreeFrom(t, after, from, count) == FreeFrom(t, fat, from, count)
    decreases count - from
  {
    if from < count {
      SameFree(t, fat, after, from + 1, count);
    }
  }

  lemma {:induction false} FirstFree(t: FatType, fat: Buffer, from: nat, n: nat, count: nat)
    requires InTables(t, fat, count) && from <= n < count && forall k: nat | from <= k < n :: !IsFree(t, fat, k)
    ensures FreeFrom(t, fat, from, count) == FreeFrom(t, fat, n, count)
    decreases n - from
  {
    if from < n {
      assert !IsFree(t, fat, from);
      FirstFree(t, fat, from + 1, n, count);
    }
  }

  /** Taking the first free cluster from `last` on leaves one less. */
  lemma FreeTaken(t: FatType, before: Buffer, middle: Buffer, after: Buffer, last: nat, n: nat, count: nat)
    requires InTables(t, before, count) && InTables(t, after, count) && last < n < count && IsFree(t, before, n)
    requires forall k: nat | last <= k < n :: !IsFree(t, before, k)
    requires Stored(t, before, middle, n, NamedRaw(t, EOF)) && Stored(t, middle, after, last, n)
    ensures FreeFrom(t, before, last, count) == FreeFrom(t, after, n, count) + 1
  {
    hide Stored, Get, NamedRaw;
    FirstFree(t, before, last, n, count);
    TakenEntries(t, before, middle, after, last, n, count);
    SameFree(t, before, after, n + 1, count);
  }

  lemma TakenEntries(t: FatType, before: Buffer, middle: Buffer, after: Buffer, last: nat, n: nat, count: nat)
    requires InTables(t, before, count) && InTables(t, after, count) && last < n < count
    requires Stored(t, before, middle, n, NamedRaw(t, EOF)) && Stored(t, middle, after, last, n)
    ensures StatusOf(t, after, n) == EndOfChain
    ensures forall m: nat | n + 1 <= m < count :: Get(t, after, m) == Get(t, before, m)
  {
    hide Stored, Get;
    EofReads(t);
    forall m: nat | n <= m < count ensures Get(t, after, m) == if m == n then NamedRaw(t, EOF) else Get(t, before, m) {
      StoredEntry(t, before, middle, n, NamedRaw(t, EOF), m);
      StoredEntry(t, before, middle, n, NamedRaw(t, EOF), n);
      assert InTable(t, before, m);
      StoredEntry(t, middle, after, last, n, m);
    }
  }

  /** A mounted volume, as far as its table goes. `steps` is the number of sector writes before it stops. */
  class Volume {
    const t: FatType
    const countofClusters: nat
    const sectorSize: nat
    var fat: Buffer
    var steps: nat

    ghost predicate Valid()
      reads this
    {
      InTables(t, fat, countofClusters) && ValidSectorSize(sectorSize)
    }

    constructor (countofClusters: nat, sectorSize: nat, fat: Buffer, steps: nat)
      ensures this.countofClusters == countofClusters && t == TypeOf(countofClusters) && this.fat == fat
      ensures this.steps == steps
      ensures this.sectorSize == sectorSize
    {
      this.countofClusters, t, this.sectorSize := countofClusters, TypeOf(countofClusters), sectorSize;
      this.fat, this.steps := fat, steps;
    }

    /** The entry's sector in the table and its place there. */
    method FatInfoForCluster(n: nat) returns (sector: nat, offset: nat)
      requires sectorSize > 0
      ensures sector * sectorSize + offset == Offset(t, n) && offset == Offset(t, n) % sectorSize
    {
      hide *;
      var fatOffset := Offset(t, n);
      sector, offset := fatOffset / sectorSize, fatOffset % sectorSize;
    }

    /** Writes a sector of the table with some bytes changed. */
    method ModifySector(sector: nat, off: nat, data: Buffer) returns (ok: bool)
      requires off + |data| <= sectorSize && sector * sectorSize + off + |data| <= |fat|
      modifies this
      ensures ok == (old(steps) > 0)
      ensures ok
        ==> steps == old(steps) - 1 && Patched(old(fat), fat, sector * sectorSize + off, data) && |fat| == |old(fat)|
      ensures !ok ==> steps == old(steps) && fat == old(fat)
    {
      ok := steps > 0;
      if ok {
        steps := steps - 1;
        fat := Patch(fat, sector * sectorSize + off, data);
      }
    }

    /** An entry that straddles two sectors takes two writes, between which the volume may stop. */
    method StoreToFat(n: nat, raw: nat) returns (ok: bool)
      requires InTable(t, fat, n) && raw < Limit(t) && ValidSectorSize(sectorSize)
      modifies this
      ensures |fat| == |old(fat)| && old(steps) - 2 <= steps <= old(steps)
      ensures ok ==> Stored(t, old(fat), fat, n, raw)
      ensures !ok ==> HalfOrNone(t, old(fat), fat, n, raw, sectorSize)
      ensures old(steps) >= 2 ==> ok
    {
      hide EntryBytes, Patch;
      ghost var before := fat;
      var sector, offset := FatInfoForCluster(n);
      var entry := EntryBytes(t, fat, n, raw);
      if offset + |entry| <= sectorSize {
        ok := ModifySector(sector, offset, entry);
        return;
      }
      OnlyFat12Straddles(t, n, sectorSize);
      var head := sectorSize - offset;
      ok := ModifySector(sector, offset, entry[..head]);
      if !ok {
        return;
      }
      assert (sector + 1) * sectorSize == Offset(t, n) + head;
      ghost var middle := fat;
      ok := ModifySector(sector + 1, 0, entry[head..]);
      if ok {
        StoredInHalves(t, before, middle, fat, n, raw, head);
      }
    }

    /** The first free cluster from `hint` on becomes the end of a chain. */
    method AllocateInFat(hint: nat) returns (r: Result<nat>, ghost chosen: nat)
      requires Valid()
      modifies this
      ensures r != Err(NoSpace) ==> hint <= chosen < countofClusters && IsFree(t, old(fat), chosen)
      ensures r.Ok? ==> r.value == chosen
      ensures r == Err(Interrupted) ==> HalfOrNone(t, old(fat), fat, chosen, NamedRaw(t, EOF), sectorSize)
      ensures Valid() && |fat| == |old(fat)| && old(steps) - 2 <= steps <= old(steps)
      ensures r.Ok? ==> hint <= r.value < countofClusters && IsFree(t, old(fat), r.value)
      ensures r.Ok? ==> forall k: nat | hint <= k < r.value :: !IsFree(t, old(fat), k)
      ensures r.Ok? ==> Stored(t, old(fat), fat, r.value, NamedRaw(t, EOF))
      ensures r == Err(NoSpace) <==> NoFreeFrom(t, old(fat), hint, countofClusters)
      ensures r == Err(NoSpace) ==> fat == old(fat) && steps == old(steps)
      ensures r.Err?
        ==> (r.error == NoSpace || r.error == Interrupted) && forall tail: nat :: GrowthOnly(t, old(fat), fat, tail)
      ensures old(steps) >= 2 ==> r != Err(Interrupted)
    {
      ghost var before := fat;
      var num := hint;
      while num < countofClusters && Classify(t, Get(t, fat, num)) != Free
        invariant fat == old(fat) && forall k: nat | hint <= k < num :: !IsFree(t, fat, k)
        decreases countofClusters - num
      {
        num := num + 1;
      }
      if num >= countofClusters {
        forall tail: nat ensures GrowthOnly(t, before, fat, tail) {
          NoChange(t, fat, tail);
        }
        return Err(NoSpace), num;
      }
      EofReads(t);
      assert IsFree(t, fat, num);
      var ok := StoreToFat(num, NamedRaw(t, EOF));
      SameTables(t, before, fat, countofClusters);
      if ok {
        return Ok(num), num;
      }
      forall tail: nat ensures GrowthOnly(t, before, fat, tail) {
        HalfAllocated(t, before, fat, num, sectorSize, tail);
      }
      return Err(Interrupted), num;
    }
  }

  /** What a store that was stopped leaves. */
  ghost predicate HalfOrNone(t: FatType, fat: Buffer, after: Buffer, n: nat, raw: nat, size: nat)
    requires ValidSectorSize(size)
  {
    fat == after || (Straddles(t, n, size) && HalfStored(t, fat, after, n, raw, Head(t, n, size)))
  }

  /** Half of an end mark in a free entry touches no chain. */
  lemma HalfAllocated(t: FatType, fat: Buffer, after: Buffer, n: nat, size: nat, tail: nat)
    requires ValidSectorSize(size) && IsFree(t, fat, n)
    requires HalfOrNone(t, fat, after, n, NamedRaw(t, EOF), size)
    ensures GrowthOnly(t, fat, after, tail)
  {
    if fat != after {
      OnlyFat12Straddles(t, n, size);
      HalfStoredEntry(fat, after, n, NamedRaw(t, EOF), Head(t, n, size), n);
      forall m: nat | InTable(t, fat, m) && Get(t, after, m) != Get(t, fat, m) ensures IsFree(t, fat, m) {
        HalfStoredEntry(fat, after, n, NamedRaw(t, EOF), Head(t, n, size), m);
      }
    }
  }

  // ----- clusters that are lost ---------------------------------------------------------------------------------

  /** How far a new cluster has come: its end mark, then the link to it, each perhaps in part. */
  datatype Stage = Unmarked | PartlyMarked | Marked | PartlyLinked

  /** Where growing stopped: at `cluster`, which was to follow `tail`. */
  datatype Stop = Stop(cluster: nat, tail: nat, stage: Stage)

  /** What is in the table when growing stops there. */
  ghost predicate Reached(t: FatType, start: Buffer, fat: Buffer, size: nat, s: Stop)
    requires ValidSectorSize(size)
  {
    && IsFree(t, start, s.cluster) && InTable(t, fat, s.cluster) && InTable(t, fat, s.tail)
    && match s.stage
       case Unmarked => IsFree(t, fat, s.cluster) && StatusOf(t, fat, s.tail) == EndOfChain
       case PartlyMarked =>
         && Straddles(t, s.cluster, size) && StatusOf(t, fat, s.tail) == EndOfChain
         && Get(t, fat, s.cluster) == HalfRaw(s.cluster, Head(t, s.cluster, size), 0, NamedRaw(t, EOF))
       case Marked => Get(t, fat, s.cluster) == NamedRaw(t, EOF) && StatusOf(t, fat, s.tail) == EndOfChain
       case PartlyLinked =>
         && Straddles(t, s.tail, size) && Get(t, fat, s.cluster) == NamedRaw(t, EOF)
         && exists was: nat :: Classify(t, was) == EndOfChain
              && Get(t, fat, s.tail) == HalfRaw(s.tail, Head(t, s.tail, size), was, s.cluster)
  }

  /** Stopping there loses the cluster. */
  predicate Loses(t: FatType, fat: Buffer, size: nat, s: Stop)
    requires ValidSectorSize(size)
  {
    match s.stage
    case Unmarked => false
    case PartlyMarked => s.cluster % 2 == 0 || Head(t, s.cluster, size) == 2
    case Marked => true
    case PartlyLinked => InTable(t, fat, s.tail) && StatusOf(t, fat, s.tail) != Next(s.cluster)
  }

  /** The cluster was free, and is now neither free nor in the chain. */
  ghost predicate IsLost(t: FatType, start: Buffer, fat: Buffer, cs: seq<nat>, c: nat) {
    IsFree(t, start, c) && !IsFree(t, fat, c) && c !in cs
  }

  ghost predicate NoneLost(t: FatType, start: Buffer, fat: Buffer, cs: seq<nat>) {
    forall c: nat :: !IsLost(t, start, fat, cs, c)
  }

  /** Exactly the cluster at which it stopped is lost, if that stop loses it. */
  ghost predicate LostAt(t: FatType, start: Buffer, fat: Buffer, cs: seq<nat>, size: nat, s: Stop)
    requires ValidSectorSize(size)
  {
    && Reached(t, start, fat, size, s)
    && forall c: nat :: IsLost(t, start, fat, cs, c) <==> c == s.cluster && Loses(t, fat, size, s)
  }

  lemma StoppedMarking(t: FatType, before: Buffer, after: Buffer, cs: seq<nat>, n: nat, size: nat) returns (s: Stop)
    requires IsChain(t, before, cs) && IsFree(t, before, n) && ValidSectorSize(size)
    requires HalfOrNone(t, before, after, n, NamedRaw(t, EOF), size)
    ensures LostAt(t, before, after, cs, size, s)
  {
    var last := cs[|cs| - 1];
    LinkKnown(t, before, cs, |cs| - 1);
    FreeIsUnlinked(t, before, cs, n);
    assert last in cs;
    s := Stop(n, last, if before == after then Unmarked else PartlyMarked);
    hide IsChain, Straddles, Head, HalfStored, Get, IsLost, Loses;
    if before != after {
      OnlyFat12Straddles(t, n, size);
      var k := Head(t, n, size);
      HalfStoredEntry(before, after, n, NamedRaw(t, EOF), k, n);
      FreeIsZero(t, before, n);
      forall m: nat | m != n && InTable(t, before, m) ensures Get(t, after, m) == Get(t, before, m) {
        HalfStoredEntry(before, after, n, NamedRaw(t, EOF), k, m);
      }
    }
    MarkingLoses(t, before, after, cs, size, s);
  }

  lemma FreeIsZero(t: FatType, fat: Buffer, n: nat)
    requires IsFree(t, fat, n)
    ensures Get(t, fat, n) == 0
  {
  }

  lemma MarkingLoses(t: FatType, before: Buffer, after: Buffer, cs: seq<nat>, size: nat, s: Stop)
    requires ValidSectorSize(size) && Reached(t, before, after, size, s) && s.cluster !in cs && |after| == |before|
    requires s.stage.Unmarked? || s.stage.PartlyMarked?
    requires forall m: nat | m != s.cluster && InTable(t, before, m) :: Get(t, after, m) == Get(t, before, m)
    ensures forall c: nat :: IsLost(t, before, after, cs, c) <==> c == s.cluster && Loses(t, after, size, s)
  {
    if s.stage.PartlyMarked? {
      OnlyFat12Straddles(t, s.cluster, size);
    }
    hide Straddles, Head, Get;
    assert s.stage.PartlyMarked?
      ==> (IsFree(t, after, s.cluster) <==> s.cluster % 2 == 1 && Head(t, s.cluster, size) == 1);
  }

  lemma StoppedLinking(t: FatType, before: Buffer, middle: Buffer, after: Buffer, cs: seq<nat>, n: nat, size: nat)
    returns (s: Stop)
    requires IsChain(t, before, cs) && IsFree(t, before, n) && ValidSectorSize(size) && n >= 2
    requires Stored(t, before, middle, n, NamedRaw(t, EOF)) && HalfOrNone(t, middle, after, cs[|cs| - 1], n, size)
    ensures LostAt(t, before, after, if IsChain(t, after, cs + [n]) then cs + [n] else cs, size, s)
  {
    var last := cs[|cs| - 1];
    s := Stop(n, last, if middle == after then Marked else PartlyLinked);
    FreeIsUnlinked(t, before, cs, n);
    hide IsChain, IsFree, Stored, Get, NamedRaw, HalfOrNone, Reached, IsLost, Loses;
    ChainKept(t, before, middle, n, NamedRaw(t, EOF), cs);
    NewChain(t, before, middle, n);
    MarkedEntries(t, before, middle, n);
    LinkingReaches(t, before, middle, after, cs, n, size, s);
    StatusOfTail(t, middle, after, cs, n);
    EndNotFree(t, before, cs, n);
    LinkingLoses(t, before, after, cs, if IsChain(t, after, cs + [n]) then cs + [n] else cs, size, s);
  }

  lemma MarkedEntries(t: FatType, before: Buffer, middle: Buffer, n: nat)
    requires Stored(t, before, middle, n, NamedRaw(t, EOF))
    ensures |middle| == |before| && Get(t, middle, n) == NamedRaw(t, EOF)
    ensures forall m: nat | m != n && InTable(t, before, m) :: Get(t, middle, m) == Get(t, before, m)
  {
    hide Stored, Get;
    StoredEntry(t, before, middle, n, NamedRaw(t, EOF), n);
    forall m: nat | m != n && InTable(t, before, m) ensures Get(t, middle, m) == Get(t, before, m) {
      StoredEntry(t, before, middle, n, NamedRaw(t, EOF), m);
    }
  }

  lemma LinkingReaches(t: FatType, before: Buffer, middle: Buffer, after: Buffer, cs: seq<nat>, n: nat, size: nat,
                       s: Stop)
    requires IsFree(t, before, n) && ValidSectorSize(size) && |middle| == |before| && IsChain(t, middle, cs)
    requires n !in cs && Get(t, middle, n) == NamedRaw(t, EOF) && InTable(t, middle, n)
    requires HalfOrNone(t, middle, after, cs[|cs| - 1], n, size)
    requires s == Stop(n, cs[|cs| - 1], if middle == after then Marked else PartlyLinked)
    ensures Reached(t, before, after, size, s) && |after| == |middle|
    ensures forall m: nat | m != s.tail && InTable(t, middle, m) :: Get(t, after, m) == Get(t, middle, m)
  {
    var last := cs[|cs| - 1];
    assert last in cs;
    LinkKnown(t, middle, cs, |cs| - 1);
    hide IsChain, IsFree, Straddles, Head, HalfStored, Get, NamedRaw, HalfRaw;
    if middle != after {
      OnlyFat12Straddles(t, last, size);
      HalfStoredEntry(middle, after, last, n, Head(t, last, size), last);
      forall m: nat | m != last && InTable(t, middle, m) ensures Get(t, after, m) == Get(t, middle, m) {
        HalfStoredEntry(middle, after, last, n, Head(t, last, size), m);
      }
    }
  }

  lemma LinkingLoses(t: FatType, before: Buffer, after: Buffer, cs: seq<nat>, cs': seq<nat>, size: nat, s: Stop)
    requires ValidSectorSize(size) && Reached(t, before, after, size, s) && s.cluster !in cs && |after| == |before|
    requires (s.stage.Marked? || s.stage.PartlyLinked?) && !IsFree(t, before, s.tail)
    requires cs' == if StatusOf(t, after, s.tail) == Next(s.cluster) then cs + [s.cluster] else cs
    requires forall m: nat | m != s.cluster && m != s.tail && InTable(t, before, m) ::
      Get(t, after, m) == Get(t, before, m)
    ensures forall c: nat :: IsLost(t, before, after, cs', c) <==> c == s.cluster && Loses(t, after, size, s)
  {
    EofReads(t);
    hide Straddles, Head, Get, HalfRaw;
  }

  lemma LinkedIsNotLost(t: FatType, before: Buffer, middle: Buffer, after: Buffer, cs: seq<nat>, n: nat)
    requires IsChain(t, before, cs) && IsFree(t, before, n)
    requires Stored(t, before, middle, n, NamedRaw(t, EOF)) && Stored(t, middle, after, cs[|cs| - 1], n)
    ensures NoneLost(t, before, after, cs + [n])
  {
    var last := cs[|cs| - 1];
    EndNotFree(t, before, cs, n);
    assert last in cs;
    hide IsChain, Stored, Get, NamedRaw;
    forall c: nat ensures !IsLost(t, before, after, cs + [n], c) {
      if IsFree(t, before, c) && c != n && c != last {
        StoredEntry(t, before, middle, n, NamedRaw(t, EOF), c);
        StoredEntry(t, middle, after, last, n, c);
      }
    }
  }

  /** What is lost since the start is what the last step loses. */
  lemma LostInAll(t: FatType, start: Buffer, fat: Buffer, after: Buffer, cs: seq<nat>, cs': seq<nat>, c: nat)
    requires NoneLost(t, start, fat, cs) && (forall x | x in cs :: x in cs')
    requires forall m: nat | IsFree(t, fat, m) :: IsFree(t, start, m)
    ensures IsLost(t, start, after, cs', c) <==> IsLost(t, fat, after, cs', c)
  {
    assert !IsLost(t, start, fat, cs, c);
  }

  /** So it is over several steps, whether the last one is done or has stopped at `s`. */
  lemma LostSoFar(t: FatType, start: Buffer, fat: Buffer, after: Buffer, cs: seq<nat>, cs': seq<nat>, tail: nat,
                  size: nat, s: Stop)
    requires NoneLost(t, start, fat, cs) && IsChain(t, fat, cs) && GrowthOnly(t, start, fat, tail) && tail in cs
    requires ValidSectorSize(size) && forall x | x in cs :: x in cs'
    ensures NoneLost(t, fat, after, cs') ==> NoneLost(t, start, after, cs')
    ensures LostAt(t, fat, after, cs', size, s) ==> LostAt(t, start, after, cs', size, s)
  {
    AllWereFree(t, start, fat, tail, cs);
    hide IsChain, IsFree, GrowthOnly, IsLost, Loses;
    forall c: nat ensures IsLost(t, start, after, cs', c) <==> IsLost(t, fat, after, cs', c) {
      LostInAll(t, start, fat, after, cs, cs', c);
    }
    if LostAt(t, fat, after, cs', size, s) {
      assert IsFree(t, start, s.cluster);
    }
  }

  // ----- a chain in use -------------------------------------------------------------------------------------------

  datatype Link = Cluster(n: nat) | EndOfFile

  /** The first `k` clusters as the chain's cache holds them. */
  function Links(cs: seq<nat>, k: nat): (ls: seq<Link>)
    requires k <= |cs|
    ensures |ls| == k && forall i | 0 <= i < k :: ls[i] == Cluster(cs[i])
  {
    seq(k, i requires 0 <= i < k => Cluster(cs[i]))
  }

  /** The cache holds the whole chain but not its end. */
  ghost predicate Whole(cache: seq<Link>, cs: seq<nat>) { cache == Links(cs, |cs|) }

  ghost predicate Complete(cache: seq<Link>, cs: seq<nat>) { cache == Links(cs, |cs|) + [EndOfFile] }

  ghost predicate Beginning(cache: seq<Link>, cs: seq<nat>) { 0 < |cache| <= |cs| && cache == Links(cs, |cache|) }

  lemma CacheMoves(cache: seq<Link>, cs: seq<nat>, n: nat)
    ensures Complete(cache, cs) ==> |cache| == |cs| + 1 && Whole(cache[..|cs|], cs)
    ensures Whole(cache, cs) && cs != []
      ==> Beginning(cache, cs) && |cache| == |cs| && cache[|cache| - 1] == Cluster(cs[|cs| - 1])
    ensures Whole(cache, cs) ==> Complete(cache + [EndOfFile], cs) && Whole(cache + [Cluster(n)], cs + [n])
  {
    if Complete(cache, cs) {
      assert cache[..|cs|] == Links(cs, |cs|);
    }
    if Whole(cache, cs) {
      assert cache + [Cluster(n)] == Links(cs + [n], |cs| + 1);
    }
  }

  /** A chain that has grown from `old'`, in a table that has only changed for that. */
  ghost predicate GrownFrom(t: FatType, start: Buffer, fat: Buffer, old': seq<nat>, cs: seq<nat>, count: nat) {
    && 0 < |old'| <= |cs| && cs[..|old'|] == old' && GrowthOnly(t, start, fat, old'[|old'| - 1])
    && forall k | |old'| <= k < |cs| :: IsFree(t, start, cs[k]) && cs[k] < count
  }

  class ClusterChain {
    const vol: Volume
    const firstCluster: nat
    /** The known beginning of the chain, and its end once that is known. */
    var cache: seq<Link>
    /** The chain in the table. */
    ghost var clusters: seq<nat>

    ghost predicate CacheIsComplete()
      reads this
    {
      Complete(cache, clusters)
    }

    /** What holds even if a link has been torn. */
    ghost predicate Sound()
      reads this, vol
    {
      && vol.Valid() && LinksReadBack(vol.t, vol.countofClusters)
      && clusters != [] && clusters[0] == firstCluster && (forall i | 0 <= i < |clusters| :: clusters[i] >= 2)
    }

    ghost predicate Valid()
      reads this, vol
    {
      Sound() && IsChain(vol.t, vol.fat, clusters) && (Complete(cache, clusters) || Beginning(cache, clusters))
    }

    /** The volume stopped between the two writes of a link that straddles sectors, which breaks the chain. */
    ghost predicate Torn()
      reads this, vol
    {
      Sound() && TornLink(vol.t, vol.fat, clusters, vol.sectorSize)
    }

    /** How many clusters the chain could have: those it has and the free ones after its end. */
    ghost function Capacity(): nat
      requires Sound()
      reads this, vol
    {
      |clusters| + FreeFrom(vol.t, vol.fat, clusters[|clusters| - 1], vol.countofClusters)
    }

    constructor (vol: Volume, firstCluster: nat, ghost clusters: seq<nat>)
      requires vol.Valid() && LinksReadBack(vol.t, vol.countofClusters)
      requires IsChain(vol.t, vol.fat, clusters) && clusters[0] == firstCluster
      ensures Valid() && this.vol == vol && this.clusters == clusters
    {
      this.vol, this.firstCluster, cache, this.clusters := vol, firstCluster, [Cluster(firstCluster)], clusters;
      new;
      assert cache == Links(this.clusters, 1);
    }

    /** Link `i` of the chain: a cluster, or the end. */
    method ExtendCacheToInclude(i: nat) returns (r: Result<Link>)
      requires Valid()
      modifies this`cache
      ensures Valid() && r == Ok(if i < |clusters| then Cluster(clusters[i]) else EndOfFile)
      ensures i >= |clusters| ==> CacheIsComplete()
      ensures i < |cache| || CacheIsComplete()
    {
      hide IsChain, LinksReadBack;
      while i >= |cache|
        invariant Valid()
        decreases |clusters| + 1 - |cache|
      {
        match cache[|cache| - 1] {
          case EndOfFile => return Ok(EndOfFile);
          case Cluster(n) =>
            assert n == clusters[|cache| - 1] && |cache| <= |clusters|;
            LinkKnown(vol.t, vol.fat, clusters, |cache| - 1);
            var status := Classify(vol.t, Get(vol.t, vol.fat, n));
            if status.Next? {
              cache := cache + [Cluster(status.cluster)];
              assert |cache| <= |clusters| ==> cache == Links(clusters, |cache|);
            } else if status == EndOfChain {
              cache := cache + [EndOfFile];
            } else {
              return Err(IoError);
            }
        }
      }
      return Ok(cache[i]);
    }

    /**
     * Grows the chain to `clusterCount` clusters, if the free clusters after its end suffice. Whenever it
     * stops, be it done, out of space or interrupted between two writes, it has only grown and every other
     * chain is kept; the chain itself is sound unless the volume stopped inside a link that straddles sectors.
     * No free cluster is lost, but for the one at which it is interrupted, and where this happens is `stop`.
     */
    method ExpandChainToLength(clusterCount: nat) returns (r: Result<()>, ghost stop: Stop)
      requires Valid() && CacheIsComplete() && clusterCount >= |clusters|
      modifies this, vol
      ensures Sound() && GrownFrom(vol.t, old(vol.fat), vol.fat, old(clusters), clusters, vol.countofClusters)
      ensures Valid() || (r == Err(Interrupted) && Torn())
      ensures r.Ok? ==> |clusters| == clusterCount && CacheIsComplete()
      ensures r.Err? ==> r.error == NoSpace || r.error == Interrupted
      ensures r == Err(NoSpace) ==> |clusters| < clusterCount
      ensures r != Err(Interrupted) ==> Capacity() == old(Capacity()) && (r.Ok? <==> clusterCount <= old(Capacity()))
      ensures r != Err(Interrupted) ==> vol.steps + 4 * |clusters| >= old(vol.steps) + 4 * |old(clusters)|
      ensures old(vol.steps) >= 4 * (clusterCount - |old(clusters)|) ==> r != Err(Interrupted)
      ensures r != Err(Interrupted) ==> NoneLost(vol.t, old(vol.fat), vol.fat, clusters)
      ensures r == Err(Interrupted) ==> LostAt(vol.t, old(vol.fat), vol.fat, clusters, vol.sectorSize, stop)
    {
      hide IsChain, LinksReadBack, InTables, Complete, Beginning, Whole, GrownFrom, GrownBy, Links, NoFreeFrom, IsFree,
        GrowthOnly, TornLink, FreeFrom, NoneLost, LostAt;
      ghost var start, known := vol.fat, clusters;
      stop := Stop(0, 0, Unmarked);
      NothingLost(vol.t, start, clusters);
      StartGrowing();
      cache := cache[..|cache| - 1];
      var needed := clusterCount - |cache|;
      while needed > 0
        invariant Valid() && 0 <= needed == clusterCount - |clusters| && Whole(cache, clusters)
        invariant GrownFrom(vol.t, start, vol.fat, known, clusters, vol.countofClusters)
        invariant NoneLost(vol.t, start, vol.fat, clusters)
        invariant Capacity() == old(Capacity()) && |clusters| >= |known|
        invariant vol.steps + 4 * |clusters| >= old(vol.steps) + 4 * |known|
        decreases needed
      {
        ghost var before, now := vol.fat, clusters;
        var added;
        added, stop := AddCluster();
        LostUpToNow(vol.t, start, before, vol.fat, known, now, clusters, vol.countofClusters, vol.sectorSize, stop);
        GrownAgain(vol.t, start, before, vol.fat, known, now, clusters, vol.countofClusters);
        if added.Err? {
          return added, stop;
        }
        needed := needed - 1;
      }
      CacheMoves(cache, clusters, 0);
      cache := cache + [EndOfFile];
      return Ok(()), stop;
    }

    /** One more cluster: allocated, then linked. */
    method AddCluster() returns (r: Result<()>, ghost stop: Stop)
      requires Valid() && Whole(cache, clusters)
      modifies this, vol
      ensures Sound() && GrownBy(vol.t, old(vol.fat), vol.fat, old(clusters), clusters, vol.countofClusters)
      ensures Valid() || (r == Err(Interrupted) && Torn())
      ensures r.Ok? ==> Whole(cache, clusters) && |clusters| == |old(clusters)| + 1 && Capacity() == old(Capacity())
      ensures r.Err? ==> r.error == NoSpace || r.error == Interrupted
      ensures r == Err(NoSpace) <==> old(Capacity()) == |old(clusters)|
      ensures r == Err(NoSpace) ==> clusters == old(clusters) && vol.fat == old(vol.fat) && vol.steps == old(vol.steps)
      ensures old(vol.steps) - 4 <= vol.steps <= old(vol.steps) && (old(vol.steps) >= 4 ==> r != Err(Interrupted))
      ensures r != Err(Interrupted) ==> NoneLost(vol.t, old(vol.fat), vol.fat, clusters)
      ensures r == Err(Interrupted) ==> LostAt(vol.t, old(vol.fat), vol.fat, clusters, vol.sectorSize, stop)
    {
      hide IsChain, IsFree, Stored, GrowthOnly, InTables, LinksReadBack, Links, Complete, Beginning, Whole, GrownBy,
        NoFreeFrom, InTable, Limit, TornLink, FreeFrom, HalfOrNone, ValidSectorSize, NoneLost, LostAt;
      ghost var before := vol.fat;
      LastKnown();
      var last := cache[|cache| - 1].n;
      NoneFree(vol.t, before, last, vol.countofClusters);
      NothingGrown(vol.t, before, clusters, vol.countofClusters);
      stop := Stop(last, last, Unmarked);
      var found;
      ghost var chosen;
      found, chosen := vol.AllocateInFat(last);
      if found.Err? {
        NotAdded(vol.t, before, vol.fat, clusters, vol.countofClusters);
        if found.error == NoSpace {
          NothingLost(vol.t, before, clusters);
        } else {
          stop := StoppedMarking(vol.t, before, vol.fat, clusters, chosen, vol.sectorSize);
        }
        return Err(found.error), stop;
      }
      var n := found.value;
      ghost var middle, known := vol.fat, clusters;
      Added(vol.t, before, middle, known, n, vol.countofClusters);
      var ok := vol.StoreToFat(last, n);
      if !ok {
        HalfJoined(vol.t, before, middle, vol.fat, known, n, vol.countofClusters, vol.sectorSize);
        stop := StoppedLinking(vol.t, before, middle, vol.fat, known, n, vol.sectorSize);
        if IsChain(vol.t, vol.fat, known + [n]) {
          CacheMoves(cache, known, n);
          clusters := clusters + [n];
          StillBeginning(cache, known, n);
        }
        return Err(Interrupted), stop;
      }
      LinkedIsNotLost(vol.t, before, middle, vol.fat, known, n);
      Joined(vol.t, before, middle, vol.fat, known, n, vol.countofClusters);
      TakenOne(vol.t, before, middle, vol.fat, known, n, vol.countofClusters);
      CacheMoves(cache, known, n);
      cache := cache + [Cluster(n)];
      clusters := clusters + [n];
      CacheMoves(cache, clusters, n);
      return Ok(()), stop;
    }

    lemma LastKnown()
      requires Valid() && Whole(cache, clusters)
      ensures |clusters| > 0 && |cache| > 0 && cache[|cache| - 1] == Cluster(clusters[|clusters| - 1])
      ensures InTable(vol.t, vol.fat, clusters[|clusters| - 1])
    {
      CacheMoves(cache, clusters, 0);
    }

    lemma StartGrowing()
      requires Valid() && CacheIsComplete()
      ensures |cache| == |clusters| + 1 && Whole(cache[..|cache| - 1], clusters)
      ensures |clusters| > 0 && Beginning(cache[..|cache| - 1], clusters)
      ensures GrownFrom(vol.t, vol.fat, vol.fat, clusters, clusters, vol.countofClusters)
    {
      CacheMoves(cache, clusters, 0);
      CacheMoves(cache[..|cache| - 1], clusters, 0);
    }
  }

  ghost predicate NoFreeFrom(t: FatType, fat: Buffer, from: nat, count: nat) {
    forall k: nat | from <= k < count :: !IsFree(t, fat, k)
  }

  /** One step of growing: the chain is as it was, or one formerly free cluster longer. */
  ghost predicate GrownBy(t: FatType, fat: Buffer, after: Buffer, cs: seq<nat>, cs': seq<nat>, count: nat) {
    && |cs| > 0 && GrowthOnly(t, fat, after, cs[|cs| - 1])
    && (cs' == cs || (|cs'| == |cs| + 1 && cs'[..|cs|] == cs && IsFree(t, fat, cs'[|cs|]) && cs'[|cs|] < count))
  }

  /** After the new cluster has been marked. */
  lemma Added(t: FatType, before: Buffer, middle: Buffer, clusters: seq<nat>, n: nat, count: nat)
    requires IsChain(t, before, clusters) && IsFree(t, before, n) && Stored(t, before, middle, n, NamedRaw(t, EOF))
    requires LinksReadBack(t, count) && clusters[|clusters| - 1] <= n < count && InTables(t, before, count)
    ensures IsChain(t, middle, clusters) && GrownBy(t, before, middle, clusters, clusters, count)
    ensures n < Limit(t) && InTables(t, middle, count) && InTable(t, middle, clusters[|clusters| - 1])
  {
    var last := clusters[|clusters| - 1];
    LinkKnown(t, before, clusters, |clusters| - 1);
    FreeIsUnlinked(t, before, clusters, n);
    hide IsChain, Stored, GrowthOnly;
    ChainKept(t, before, middle, n, NamedRaw(t, EOF), clusters);
    NoChange(t, before, last);
    GrowthStep(t, before, before, middle, last, n, NamedRaw(t, EOF));
    StoredEntry(t, before, middle, n, NamedRaw(t, EOF), n);
    SameTables(t, before, middle, count);
  }

  /** After the chain has been linked to it. */
  lemma Joined(t: FatType, before: Buffer, middle: Buffer, after: Buffer, clusters: seq<nat>, n: nat, count: nat)
    requires IsChain(t, before, clusters) && IsFree(t, before, n) && Stored(t, before, middle, n, NamedRaw(t, EOF))
    requires Stored(t, middle, after, clusters[|clusters| - 1], n)
    requires LinksReadBack(t, count) && clusters[|clusters| - 1] <= n < count && InTables(t, before, count)
    ensures IsChain(t, after, clusters + [n]) && GrownBy(t, before, after, clusters, clusters + [n], count)
    ensures InTables(t, after, count)
  {
    var last := clusters[|clusters| - 1];
    LinkKnown(t, before, clusters, |clusters| - 1);
    Added(t, before, middle, clusters, n, count);
    FreeIsUnlinked(t, before, clusters, n);
    assert n >= 2 && Classify(t, n) == Next(n);
    hide IsChain, Stored, GrowthOnly, LinksReadBack, IsFree, Classify, NamedRaw;
    NewChain(t, before, middle, n);
    ChainGrown(t, middle, after, clusters, n);
    GrowthStep(t, before, middle, after, last, last, n);
    StoredEntry(t, middle, after, last, n, last);
    SameTables(t, middle, after, count);
    assert (clusters + [n])[..|clusters|] == clusters;
  }

  /** Nothing has been added, or only half of an end mark. */
  lemma NotAdded(t: FatType, before: Buffer, after: Buffer, cs: seq<nat>, count: nat)
    requires IsChain(t, before, cs) && InTables(t, before, count) && forall tail: nat ::
      GrowthOnly(t, before, after, tail)
    ensures IsChain(t, after, cs) && GrownBy(t, before, after, cs, cs, count) && InTables(t, after, count)
  {
    var last := cs[|cs| - 1];
    assert GrowthOnly(t, before, after, last) && GrowthOnly(t, before, after, 0);
    assert 0 !in cs;
    OthersKept(t, before, after, 0, cs);
    SameTables(t, before, after, count);
  }

  /** After the chain has been linked to it in half: the chain has grown, or it has not, or the link is torn. */
  lemma HalfJoined(t: FatType, before: Buffer, middle: Buffer, after: Buffer, clusters: seq<nat>, n: nat, count: nat,
                   size: nat)
    requires IsChain(t, before, clusters) && IsFree(t, before, n) && Stored(t, before, middle, n, NamedRaw(t, EOF))
    requires LinksReadBack(t, count) && clusters[|clusters| - 1] <= n < count && InTables(t, before, count)
    requires ValidSectorSize(size) && HalfOrNone(t, middle, after, clusters[|clusters| - 1], n, size)
    ensures GrownBy(t, before, after, clusters, clusters, count) && InTables(t, after, count)
    ensures IsChain(t, after, clusters) || IsChain(t, after, clusters + [n]) || TornLink(t, after, clusters, size)
    ensures IsChain(t, after, clusters + [n]) ==> GrownBy(t, before, after, clusters, clusters + [n], count)
  {
    var last := clusters[|clusters| - 1];
    LinkKnown(t, before, clusters, |clusters| - 1);
    Added(t, before, middle, clusters, n, count);
    FreeIsUnlinked(t, before, clusters, n);
    assert n >= 2;
    LinksReadBackWhen(t, count);
    assert (clusters + [n])[..|clusters|] == clusters;
    hide IsChain, Stored, GrowthOnly, LinksReadBack, IsFree, Classify, NamedRaw, InTables, Straddles, HalfStored, Head,
      Breaks;
    NewChain(t, before, middle, n);
    if after == middle {
      SameTables(t, before, after, count);
    } else {
      HalfLinked(t, middle, after, clusters, n, size);
      GrownHalf(t, before, middle, after, last, n);
      SameTables(t, middle, after, count);
      HalfIsTorn(t, middle, after, clusters, n, size);
    }
  }

  lemma HalfIsTorn(t: FatType, whole: Buffer, fat: Buffer, cs: seq<nat>, n: nat, size: nat)
    requires IsChain(t, whole, cs) && ValidSectorSize(size) && Straddles(t, cs[|cs| - 1], size)
    requires HalfStored(t, whole, fat, cs[|cs| - 1], n, Head(t, cs[|cs| - 1], size))
    requires IsChain(t, fat, cs) || IsChain(t, fat, cs + [n]) <==> !Breaks(cs[|cs| - 1], n, Head(t, cs[|cs| - 1], size))
    ensures IsChain(t, fat, cs) || IsChain(t, fat, cs + [n]) || TornLink(t, fat, cs, size)
  {
    if !IsChain(t, fat, cs) && !IsChain(t, fat, cs + [n]) {
      assert TornFrom(t, whole, fat, cs, n, size);
    }
  }

  lemma GrownHalf(t: FatType, before: Buffer, middle: Buffer, after: Buffer, tail: nat, n: nat)
    requires GrowthOnly(t, before, middle, tail) && GrowthOnly(t, middle, after, tail)
    requires IsFree(t, before, n) && Stored(t, before, middle, n, NamedRaw(t, EOF))
    ensures GrowthOnly(t, before, after, tail)
  {
    forall m: nat | InTable(t, before, m) && Get(t, after, m) != Get(t, before, m)
      ensures m == tail || IsFree(t, before, m)
    {
      StoredEntry(t, before, middle, n, NamedRaw(t, EOF), m);
    }
  }

  lemma StillBeginning(cache: seq<Link>, cs: seq<nat>, n: nat)
    requires Whole(cache, cs) && cs != []
    ensures Beginning(cache, cs + [n])
  {
  }

  lemma TakenOne(t: FatType, before: Buffer, middle: Buffer, after: Buffer, clusters: seq<nat>, n: nat, count: nat)
    requires IsChain(t, before, clusters) && IsFree(t, before, n) && Stored(t, before, middle, n, NamedRaw(t, EOF))
    requires Stored(t, middle, after, clusters[|clusters| - 1], n)
    requires clusters[|clusters| - 1] <= n < count && InTables(t, before, count) && InTables(t, after, count)
    requires forall k: nat | clusters[|clusters| - 1] <= k < n :: !IsFree(t, before, k)
    ensures FreeFrom(t, before, clusters[|clusters| - 1], count) == FreeFrom(t, after, n, count) + 1
  {
    hide IsChain, Stored, FreeFrom, IsFree, InTables, NamedRaw;
    EndNotFree(t, before, clusters, n);
    var last := clusters[|clusters| - 1];
    FreeTaken(t, before, middle, after, last, n, count);
  }

  lemma NoChange(t: FatType, fat: Buffer, tail: nat)
    ensures GrowthOnly(t, fat, fat, tail)
  {
  }

  lemma NothingLost(t: FatType, fat: Buffer, cs: seq<nat>)
    ensures NoneLost(t, fat, fat, cs)
  {
  }

  lemma LostUpToNow(t: FatType, start: Buffer, fat: Buffer, after: Buffer, old': seq<nat>, cs: seq<nat>, cs': seq<nat>,
                    count: nat, size: nat, s: Stop)
    requires GrownFrom(t, start, fat, old', cs, count) && IsChain(t, fat, cs) && GrownBy(t, fat, after, cs, cs', count)
    requires NoneLost(t, start, fat, cs) && ValidSectorSize(size)
    ensures NoneLost(t, fat, after, cs') ==> NoneLost(t, start, after, cs')
    ensures LostAt(t, fat, after, cs', size, s) ==> LostAt(t, start, after, cs', size, s)
  {
    var tail := old'[|old'| - 1];
    assert cs[|old'| - 1] == cs[..|old'|][|old'| - 1] == tail;
    assert forall x | x in cs :: x in cs' by {
      forall i | 0 <= i < |cs| ensures cs[i] in cs' {
        assert cs' != cs ==> cs'[i] == cs'[..|cs|][i];
      }
    }
    hide IsChain, GrowthOnly, NoneLost, LostAt;
    LostSoFar(t, start, fat, after, cs, cs', tail, size, s);
  }

  lemma NothingGrown(t: FatType, fat: Buffer, cs: seq<nat>, count: nat)
    requires cs != []
    ensures GrownBy(t, fat, fat, cs, cs, count)
  {
  }

  /** Growing a grown chain again changes only what growing may change. */
  lemma GrownAgain(t: FatType, start: Buffer, fat: Buffer, after: Buffer, old': seq<nat>, cs: seq<nat>, cs': seq<nat>,
                   count: nat)
    requires GrownFrom(t, start, fat, old', cs, count) && IsChain(t, fat, cs) && GrownBy(t, fat, after, cs, cs', count)
    ensures GrownFrom(t, start, after, old', cs', count) && |cs| <= |cs'| <= |cs| + 1
    ensures cs' != cs ==> |cs'| == |cs| + 1
  {
    assert cs[..|cs|] == cs;
    hide IsChain, IsFree, GrowthOnly;
    GrownTwice(t, start, fat, after, old', cs, cs', count);
  }

  lemma GrowthChained(t: FatType, start: Buffer, fat: Buffer, after: Buffer, tail: nat, last: nat)
    requires GrowthOnly(t, start, fat, tail) && GrowthOnly(t, fat, after, last)
    requires last == tail || IsFree(t, start, last)
    requires forall m: nat | IsFree(t, fat, m) :: IsFree(t, start, m)
    ensures GrowthOnly(t, start, after, tail)
  {
    hide IsFree;
  }

  /** Growing twice is growing. */
  lemma GrownTwice(t: FatType, start: Buffer, fat: Buffer, after: Buffer, old': seq<nat>, cs: seq<nat>, cs': seq<nat>,
                   count: nat)
    requires GrownFrom(t, start, fat, old', cs, count) && IsChain(t, fat, cs)
    requires GrownFrom(t, fat, after, cs, cs', count)
    ensures GrownFrom(t, start, after, old', cs', count)
  {
    var tail, last := old'[|old'| - 1], cs[|cs| - 1];
    assert cs[|old'| - 1] == cs[..|old'|][|old'| - 1] == tail;
    AllWereFree(t, start, fat, tail, cs);
    hide IsChain, IsFree, GrowthOnly;
    GrowthChained(t, start, fat, after, tail, last);
    assert cs'[..|old'|] == cs'[..|cs|][..|old'|];
    forall k | |old'| <= k < |cs'| ensures IsFree(t, start, cs'[k]) && cs'[k] < count {
      assert k < |cs| ==> cs'[k] == cs'[..|cs|][k] == cs[k];
    }
  }

  lemma AllWereFree(t: FatType, start: Buffer, fat: Buffer, tail: nat, clusters: seq<nat>)
    requires GrowthOnly(t, start, fat, tail) && IsChain(t, fat, clusters) && tail in clusters
    ensures forall m: nat | IsFree(t, fat, m) :: IsFree(t, start, m)
  {
    forall m: nat | IsFree(t, fat, m) ensures IsFree(t, start, m) {
      WasFree(t, start, fat, tail, clusters, m);
    }
  }

  /** A chain grows without touching the others: they stay as they are, and share no cluster with it. */
  lemma GrownApart(t: FatType, start: Buffer, after: Buffer, old': seq<nat>, cs: seq<nat>, count: nat, other: seq<nat>)
    requires GrownFrom(t, start, after, old', cs, count) && IsChain(t, start, other) && Disjoint(old', other)
    ensures IsChain(t, after, other) && Disjoint(cs, other)
  {
    var tail := old'[|old'| - 1];
    assert tail in old';
    OthersKept(t, start, after, tail, other);
    forall x | x in cs ensures x !in other {
      var k :| 0 <= k < |cs| && cs[k] == x;
      if k < |old'| {
        assert x == cs[..|old'|][k] && x in old';
      } else {
        FreeIsUnlinked(t, start, other, x);
      }
    }
  }

  /** What is free while the chain grows was free before. */
  lemma WasFree(t: FatType, start: Buffer, fat: Buffer, tail: nat, clusters: seq<nat>, n: nat)
    requires GrowthOnly(t, start, fat, tail) && IsFree(t, fat, n) && IsChain(t, fat, clusters)
    requires tail in clusters
    ensures IsFree(t, start, n)
  {
    FreeIsUnlinked(t, fat, clusters, n);
  }
}
